# Diagnostics source configuration

The model covers ConveyorBelt's `DiagnosticsSource`. This is the typed view over one Azure table entity that configures a diagnostics source. It says:

- where to read from: the connection string, the index name and the mapping/table name;
- how to schedule reads: the scheduler type, grace period, frequency, maximum items and whether the source is active;
- where reading last stopped: the `LastOffsetPoint` cursor.

It also covers the `IDictionaryExtensions` helpers that read a typed property with a default.

Modules:

- `PropertyBag`: the entity's property bag, with these parts:
  - a map from name to a typed, nullable stored value;
  - the typed accessors, which fail on a property stored with another type;
  - the get-with-default helpers;
  - the boxed-object view behind `GetProperty<T>`, `SetProperty<T>` and the summary;
  - the mapping-name rule.
- `DiagnosticsSources`:
  - the `Entity` class, holding its keys and a bag field;
  - the `DiagnosticsSource` class, with its getters as functions and its setters as methods that modify the entity;
  - `GetIndexNames`, which may write an initial cursor, so it is a method;
  - `ToSummary`, a method with a loop over the properties.
- `IndexNames`: the day buckets that `GetIndexNames` derives from a cursor. There is one `yyyyMMdd` name per day, newest first, from the day after `now` back to the cursor. The bucket count truncates toward zero, as the C# `(int)` cast does.
- `TimeFormat` and `Calendar`: .NET ticks, the proleptic Gregorian calendar (400/100/4/1-year cycles), the `yyyyMMdd` key and the round-trip `"O"` text with its parser.

## Model

| member | source | states |
|---|---|---|
| PropertyBag.StringValue | src/ConveyorBelt.Tooling/Configuration/DiagnosticsSource.cs:197 | `EntityProperty.StringValue`: succeeds exactly on a string property, giving its nullable text; any other type fails |
| PropertyBag.Int32Value | src/ConveyorBelt.Tooling/Configuration/DiagnosticsSource.cs:204 | `EntityProperty.Int32Value`: succeeds exactly on an Int32 property, giving its nullable value; any other type fails |
| PropertyBag.DateTimeOffsetValue | src/ConveyorBelt.Tooling/Configuration/DiagnosticsSource.cs:212 | `EntityProperty.DateTimeOffsetValue`: succeeds exactly on a date property, giving its nullable instant; any other type fails |
| PropertyBag.BooleanValue | src/ConveyorBelt.Tooling/Configuration/DiagnosticsSource.cs:220 | `EntityProperty.BooleanValue`: succeeds exactly on a boolean property, giving its nullable value; any other type fails |
| PropertyBag.GetStringValue | src/ConveyorBelt.Tooling/Configuration/DiagnosticsSource.cs:194-199 | an absent name gives the default; a string property gives its (nullable) value; a property of another type fails |
| PropertyBag.GetIntValue | src/ConveyorBelt.Tooling/Configuration/DiagnosticsSource.cs:201-206 | an absent name gives the default; an Int32 property gives its value; any other type fails |
| PropertyBag.GetDateTimeValue | src/ConveyorBelt.Tooling/Configuration/DiagnosticsSource.cs:208-214 | an absent name gives the default; a date property gives its instant; any other type fails |
| PropertyBag.GetBooleanValue | src/ConveyorBelt.Tooling/Configuration/DiagnosticsSource.cs:216-222 | an absent name gives the default; a boolean property gives its value; any other type fails |
| PropertyBag.StringWriteThenRead | src/ConveyorBelt.Tooling/Configuration/DiagnosticsSource.cs:34-50 | a string written under a name reads back as written, with any default; every other name reads as before |
| PropertyBag.DateTimeWriteThenRead | src/ConveyorBelt.Tooling/Configuration/DiagnosticsSource.cs:40-44 | a date written under a name reads back as written; every other name reads as before |
| PropertyBag.PropertyAsObject | src/ConveyorBelt.Tooling/Configuration/DiagnosticsSource.cs:185 | the boxed object is null exactly for a null typed property; any other property is recovered from its boxed object |
| PropertyBag.FromObject | src/ConveyorBelt.Tooling/Configuration/DiagnosticsSource.cs:143 | `CreateEntityPropertyFromObject`: the stored property is null exactly when the object is null |
| PropertyBag.StoreThenBox | src/ConveyorBelt.Tooling/Configuration/DiagnosticsSource.cs:143 | storing an object and boxing the stored property gives the object back, except that a `DateTimeOffset` comes back as a `DateTime` |
| PropertyBag.DefaultOf | src/ConveyorBelt.Tooling/Configuration/DiagnosticsSource.cs:137 | `default(T)` is a value of the target type |
| PropertyBag.Convert | src/ConveyorBelt.Tooling/Configuration/DiagnosticsSource.cs:124-127 | a cast succeeds exactly when the object has the target type, and returns it unchanged; the `DateTimeOffset` target succeeds exactly on a stored `DateTime`, and gives the offset value of that same instant |
| PropertyBag.GetPropertyOf | src/ConveyorBelt.Tooling/Configuration/DiagnosticsSource.cs:118-139 | an absent name gives `default(T)`; a present name gives the stored object converted to the target (so a null property reads as null); a result always has the target type; it fails, with the name and target, exactly when a present value does not convert |
| PropertyBag.SetThenGetProperty | src/ConveyorBelt.Tooling/Configuration/DiagnosticsSource.cs:118-144 | reading back a value just written, with its own type, returns it; a `DateTimeOffset` read as `object` comes back as a `DateTime`; other names are unaffected |
| PropertyBag.AsText | src/ConveyorBelt.Tooling/Configuration/DiagnosticsSource.cs:166-167 | a value read as `string` has text exactly when it is a string, and that text is the string itself |
| DiagnosticsSources.MappingNameOf | src/ConveyorBelt.Tooling/Configuration/DiagnosticsSource.cs:164-168 | a non-null `MappingName` wins; an absent or null one falls back to `TableName` (null when it is absent or null, a failure when it is not a string); a `MappingName` that is not a string fails |
| DiagnosticsSources.Entity.constructor | src/ConveyorBelt.Tooling/Configuration/DiagnosticsSource.cs:11 | the entity holds the given keys and properties |
| DiagnosticsSources.DiagnosticsSource.constructor | src/ConveyorBelt.Tooling/Configuration/DiagnosticsSource.cs:14-17 | the view wraps the given entity itself, not a copy |
| DiagnosticsSources.DiagnosticsSource.SchedulerType | src/ConveyorBelt.Tooling/Configuration/DiagnosticsSource.cs:19-22 | null when absent, the stored string when it is one |
| DiagnosticsSources.DiagnosticsSource.ConnectionString | src/ConveyorBelt.Tooling/Configuration/DiagnosticsSource.cs:24-27 | null when absent, the stored string when it is one |
| DiagnosticsSources.DiagnosticsSource.CustomAttributes | src/ConveyorBelt.Tooling/Configuration/DiagnosticsSource.cs:29-32 | reads the `CustomAttributes` field: null when absent, the stored string when it is one |
| DiagnosticsSources.DiagnosticsSource.ErrorMessage | src/ConveyorBelt.Tooling/Configuration/DiagnosticsSource.cs:34-36 | null when absent, the stored string when it is one |
| DiagnosticsSources.DiagnosticsSource.SetErrorMessage | src/ConveyorBelt.Tooling/Configuration/DiagnosticsSource.cs:37 | stores the string under `ErrorMessage` and changes nothing else; the getter then returns it |
| DiagnosticsSources.DiagnosticsSource.LastScheduled | src/ConveyorBelt.Tooling/Configuration/DiagnosticsSource.cs:40-42 | null when absent, the stored instant when it is a date |
| DiagnosticsSources.DiagnosticsSource.SetLastScheduled | src/ConveyorBelt.Tooling/Configuration/DiagnosticsSource.cs:43 | stores the instant under `LastScheduled` and changes nothing else; the getter then returns it |
| DiagnosticsSources.DiagnosticsSource.LastOffsetPoint | src/ConveyorBelt.Tooling/Configuration/DiagnosticsSource.cs:46-48 | null when absent, the stored cursor text when it is a string |
| DiagnosticsSources.DiagnosticsSource.SetLastOffsetPoint | src/ConveyorBelt.Tooling/Configuration/DiagnosticsSource.cs:49 | stores the cursor under `LastOffsetPoint` and changes nothing else; the getter then returns it |
| DiagnosticsSources.DiagnosticsSource.StopOffsetPoint | src/ConveyorBelt.Tooling/Configuration/DiagnosticsSource.cs:52-55 | null when absent, the stored string when it is one |
| DiagnosticsSources.DiagnosticsSource.GracePeriodMinutes | src/ConveyorBelt.Tooling/Configuration/DiagnosticsSource.cs:61-64 | 5 when absent, the stored Int32 when it is one |
| DiagnosticsSources.DiagnosticsSource.SchedulingFrequencyMinutes | src/ConveyorBelt.Tooling/Configuration/DiagnosticsSource.cs:66-69 | 1 when absent, the stored Int32 when it is one |
| DiagnosticsSources.DiagnosticsSource.MaxItemsInAScheduleRun | src/ConveyorBelt.Tooling/Configuration/DiagnosticsSource.cs:71-74 | null when absent, the stored Int32 when it is one |
| DiagnosticsSources.DiagnosticsSource.IsActive | src/ConveyorBelt.Tooling/Configuration/DiagnosticsSource.cs:76-79 | true when absent, the stored boolean when it is one |
| DiagnosticsSources.Concatenable | src/ConveyorBelt.Tooling/Configuration/DiagnosticsSource.cs:83 | a null string joins as the empty string, any other as itself |
| DiagnosticsSources.TypeKeyOf | src/ConveyorBelt.Tooling/Configuration/DiagnosticsSource.cs:81-84 | a stored non-null alternate type name is the key; with none, or a null one, the key is partition key + `_` + row key, a null key rendering as empty; an alternate name of another type fails |
| DiagnosticsSources.DiagnosticsSource.ToTypeKey | src/ConveyorBelt.Tooling/Configuration/DiagnosticsSource.cs:81-84 | the entity's `AlternateTypeName` when it is non-null; partition key + `_` + row key when it is null; the getter's failure when it fails |
| DiagnosticsSources.TypeKeyIgnoresOtherProperties | src/ConveyorBelt.Tooling/Configuration/DiagnosticsSource.cs:81-111 | writing or removing any property other than `AlternateTypeName` leaves the type key unchanged |
| DiagnosticsSources.DiagnosticsSource.SetPartitionKey | src/ConveyorBelt.Tooling/Configuration/DiagnosticsSource.cs:86-90 | sets the partition key and nothing else; the getter then returns it |
| DiagnosticsSources.DiagnosticsSource.SetRowKey | src/ConveyorBelt.Tooling/Configuration/DiagnosticsSource.cs:92-96 | sets the row key and nothing else; the getter then returns it |
| DiagnosticsSources.DiagnosticsSource.IndexName | src/ConveyorBelt.Tooling/Configuration/DiagnosticsSource.cs:98-101 | null when absent, the stored string when it is one |
| DiagnosticsSources.DiagnosticsSource.AlternateTypeName | src/ConveyorBelt.Tooling/Configuration/DiagnosticsSource.cs:103-111 | null when absent, the stored string when it is one |
| DiagnosticsSources.DiagnosticsSource.GetProperty | src/ConveyorBelt.Tooling/Configuration/DiagnosticsSource.cs:118-139 | an absent name gives `default(T)`; a present name gives the entity's stored object converted to the target; a result has the target type; it fails, with the name and target, exactly when the stored object does not convert |
| DiagnosticsSources.DiagnosticsSource.SetProperty | src/ConveyorBelt.Tooling/Configuration/DiagnosticsSource.cs:141-144 | stores the object's entity property and changes nothing else; `GetProperty` of a type the value has then returns the value, except that a `DateTimeOffset` read as `object` comes back as a `DateTime` |
| DiagnosticsSources.DiagnosticsSource.GetMappingName | src/ConveyorBelt.Tooling/Configuration/DiagnosticsSource.cs:164-168 | `GetProperty<string>("MappingName")` when it is non-null; otherwise `GetProperty<string>("TableName")`; a failure of either read is the result |
| DiagnosticsSources.IsNullOrEmpty | src/ConveyorBelt.Tooling/Configuration/DiagnosticsSource.cs:148-151 | `string.IsNullOrEmpty`: true exactly when the string joins as the empty string |
| DiagnosticsSources.InitialCursor | src/ConveyorBelt.Tooling/Configuration/DiagnosticsSource.cs:152 | the initial cursor is written exactly when `now - daysToGoBack` days is a representable instant, and is an out-of-range failure otherwise; the text written is the `"O"` text of that instant, and `InitialCursorNames` states that it reads back as that instant |
| DiagnosticsSources.NeverScheduled | src/ConveyorBelt.Tooling/Configuration/DiagnosticsSource.cs:151-152 | with no cursor stored: an out-of-range initial cursor fails and changes nothing; otherwise the cursor is stored under `LastOffsetPoint` and the names are read from it (a predicate used by `GetIndexNames`'s contract) |
| DiagnosticsSources.IndexNamesFromCursor | src/ConveyorBelt.Tooling/Configuration/DiagnosticsSource.cs:154-161 | a cursor text that does not parse is a `MalformedCursor` failure; `now + 1 day` out of range is an `OutOfRange` failure; otherwise the names are the buckets from `now` to the parsed instant |
| DiagnosticsSources.DiagnosticsSource.GetIndexNames | src/ConveyorBelt.Tooling/Configuration/DiagnosticsSource.cs:146-162 | a non-empty index name is the only name, and nothing changes. Otherwise the stored cursor is used. With no cursor, or an empty one, a cursor `daysToGoBack` days back is stored first. Only that write ever happens. The names are the day buckets from `now + 1 day` back to the cursor. An unreadable cursor and an out-of-range instant are errors. After a successful bucket listing a non-empty cursor is stored |
| DiagnosticsSources.InitialCursorNames | src/ConveyorBelt.Tooling/Configuration/DiagnosticsSource.cs:151-154 | the cursor written for a source never scheduled reads back as that exact instant, so the names come from that instant |
| DiagnosticsSources.DaysBackCount | src/ConveyorBelt.Tooling/Configuration/DiagnosticsSource.cs:151-158 | a fresh cursor `daysToGoBack` days back gives `daysToGoBack + 2` names: tomorrow, today and each day back; there are none when `daysToGoBack < -1` |
| DiagnosticsSources.DiagnosticsSource.ToSummary | src/ConveyorBelt.Tooling/Configuration/DiagnosticsSource.cs:171-189 | fails where reading the connection string, the index name or the type key fails, in that order, and only then. On success its fields are those values and the keys. Its dynamic properties have exactly the entity's names, each mapped to its boxed object |
| IndexNames.TruncDiv | src/ConveyorBelt.Tooling/Configuration/DiagnosticsSource.cs:156 | the quotient truncated toward zero: the remainder has the dividend's sign and is smaller than the divisor |
| IndexNames.DayCount | src/ConveyorBelt.Tooling/Configuration/DiagnosticsSource.cs:156 | the number of days as computed before the emptiness test: the truncated whole days from the cursor to `now + 1 day`, plus one; `IndexNamesCount` states its value |
| IndexNames.IndexNamesFor | src/ConveyorBelt.Tooling/Configuration/DiagnosticsSource.cs:156-161 | the bucket names: none when the day count is not positive, else one `yyyyMMdd` key per day back from `now + 1 day`; `IndexNamesCount`, `IndexNameAt`, `IndexNamesBack` and `IndexNamesDistinct` state their number, their values and their distinctness |
| IndexNames.DayOfShift | src/ConveyorBelt.Tooling/Configuration/DiagnosticsSource.cs:160 | going back `x` whole days from the day after `now` lands on day number `DayOf(now) + 1 - x` |
| IndexNames.BucketInRange | src/ConveyorBelt.Tooling/Configuration/DiagnosticsSource.cs:160 | every bucket instant is a valid date; when the cursor is no later than `now + 1 day` no bucket instant is earlier than the cursor (a cursor between one and two days after `now` gives one bucket, earlier than the cursor) |
| IndexNames.IndexNamesCount | src/ConveyorBelt.Tooling/Configuration/DiagnosticsSource.cs:156-158 | the number of names is the whole days from the cursor to `now + 1 day`, plus one; a cursor less than a day past that still gives one name; there are none exactly when the cursor is two or more days after `now` |
| IndexNames.IndexNameAt | src/ConveyorBelt.Tooling/Configuration/DiagnosticsSource.cs:160-161 | name `x` is the `yyyyMMdd` key of the day `x` days before the day after `now`'s |
| IndexNames.IndexNamesBack | src/ConveyorBelt.Tooling/Configuration/DiagnosticsSource.cs:160-161 | read back as dates, the names count down one day at a time from the day after `now`'s |
| IndexNames.IndexNamesDistinct | src/ConveyorBelt.Tooling/Configuration/DiagnosticsSource.cs:160-161 | no two names are equal: each day bucket is named once |
| IndexNames.CountsBackDistinct | src/ConveyorBelt.Tooling/Configuration/DiagnosticsSource.cs:160-161 | names that read back as different days differ |
| IndexNames.CursorAtNow | src/ConveyorBelt.Tooling/Configuration/DiagnosticsSource.cs:156-161 | with the cursor at `now` the names are tomorrow's key then today's |
| IndexNames.DaysBackToCursor | src/ConveyorBelt.Tooling/Configuration/DiagnosticsSource.cs:156 | the whole days back from `now + 1 day` land on the cursor's day when its time of day is no later than `now`'s, and on the day after it otherwise |
| IndexNames.OldestIndexName | src/ConveyorBelt.Tooling/Configuration/DiagnosticsSource.cs:156-161 | a cursor no later than `now + 1 day` gives at least one name; the oldest is the cursor's day, or the day after it when the cursor is later in its day than `now` |
| IndexNames.CursorDayListed | src/ConveyorBelt.Tooling/Configuration/DiagnosticsSource.cs:156-161 | the cursor's own day is among the names exactly when its time of day is no later than `now`'s |
| IndexNames.CursorDayNotListed | src/ConveyorBelt.Tooling/Configuration/DiagnosticsSource.cs:156-161 | a cursor later in its day than `now` has its own day left out of the names |
| IndexNames.KeyBeforeOldest | src/ConveyorBelt.Tooling/Configuration/DiagnosticsSource.cs:160-161 | a day older than the oldest bucket has no name among them |
| TimeFormat.DayOf | src/ConveyorBelt.Tooling/Configuration/DiagnosticsSource.cs:161 | the day number of a valid instant lies in years 1 to 9999 |
| TimeFormat.Padded | src/ConveyorBelt.Tooling/Configuration/DiagnosticsSource.cs:161 | a zero-padded field has exactly its width, all digits |
| TimeFormat.PaddedBound | src/ConveyorBelt.Tooling/Configuration/DiagnosticsSource.cs:161 | `w` digits read as a number below `10^w` |
| TimeFormat.PaddedValue | src/ConveyorBelt.Tooling/Configuration/DiagnosticsSource.cs:161 | a number below `10^w`, padded to `w` digits, reads back as itself |
| TimeFormat.DayKey | src/ConveyorBelt.Tooling/Configuration/DiagnosticsSource.cs:161 | the `yyyyMMdd` key is 8 characters long |
| TimeFormat.DayKeyRoundTrip | src/ConveyorBelt.Tooling/Configuration/DiagnosticsSource.cs:161 | a day's `yyyyMMdd` key reads back as that day |
| TimeFormat.DayKeyInjective | src/ConveyorBelt.Tooling/Configuration/DiagnosticsSource.cs:161 | different days have different keys |
| TimeFormat.ClockOf | src/ConveyorBelt.Tooling/Configuration/DiagnosticsSource.cs:152 | the hour, minute, second and 7-digit fraction are in range and add back up to the time of day |
| TimeFormat.RoundTripText | src/ConveyorBelt.Tooling/Configuration/DiagnosticsSource.cs:152 | the `"O"` text of a UTC instant is 33 characters long |
| TimeFormat.ParseDate | src/ConveyorBelt.Tooling/Configuration/DiagnosticsSource.cs:154 | a parsed date is a valid calendar date |
| TimeFormat.ParseClock | src/ConveyorBelt.Tooling/Configuration/DiagnosticsSource.cs:154 | a parsed clock time is in range |
| TimeFormat.ParseOffset | src/ConveyorBelt.Tooling/Configuration/DiagnosticsSource.cs:154 | a parsed offset lies within ±14 hours |
| TimeFormat.ParseRoundTrip | src/ConveyorBelt.Tooling/Configuration/DiagnosticsSource.cs:154 | a parsed cursor is a valid instant |
| TimeFormat.InstantOf | src/ConveyorBelt.Tooling/Configuration/DiagnosticsSource.cs:154 | a date, time and offset give an instant only when it is in range |
| TimeFormat.ParseDateText | src/ConveyorBelt.Tooling/Configuration/DiagnosticsSource.cs:152-154 | a formatted date parses back to itself |
| TimeFormat.ParseClockText | src/ConveyorBelt.Tooling/Configuration/DiagnosticsSource.cs:152-154 | a formatted clock time parses back to itself |
| TimeFormat.InstantOfParts | src/ConveyorBelt.Tooling/Configuration/DiagnosticsSource.cs:152-154 | the date and clock of an instant, at offset zero, give back that instant |
| TimeFormat.ParseRoundTripText | src/ConveyorBelt.Tooling/Configuration/DiagnosticsSource.cs:152-154 | the `"O"` text written as the initial cursor parses back to the same instant |
| TimeFormat.ZeroOffset | src/ConveyorBelt.Tooling/Configuration/DiagnosticsSource.cs:152-154 | the UTC suffix `+00:00` reads as offset zero |
| Calendar.DaysInMonth | src/ConveyorBelt.Tooling/Configuration/DiagnosticsSource.cs:161 | every month has 28 to 31 days |
| Calendar.CivilFromDays | src/ConveyorBelt.Tooling/Configuration/DiagnosticsSource.cs:161 | a day number in range maps to a date in years 1 to 9999 |
| Calendar.CivilFromDaysRoundTrip | src/ConveyorBelt.Tooling/Configuration/DiagnosticsSource.cs:161 | the date of a day number is a valid date whose day number is that day |

## Left out

- `ToEntity` (lines 113-116) is modelled as returning the entity itself. The aliasing it creates is the shared `Entity` object; no contract states more than that.
- `PartitionKey` and `RowKey` getters read the entity's key fields directly and carry no contract.
- The error trace in `GetProperty<T>` (line 131) is logging and is not modelled. The rethrow is modelled as a `ConversionFailed` failure.
- `FileOffset.Parse` is not part of this model. The cursor text is parsed as the ISO-8601 round-trip form that `ToString("O")` writes (date, `T`, clock with seven fraction digits, `±HH:MM` offset). Any other text is a `MalformedCursor` failure, even where the original parser might accept it.
- The clock is one parameter, `now`. The source reads `DateTimeOffset.UtcNow` at line 152 (only when it writes a cursor) and at line 156. The lambda at line 160 reads it again once per name. It does so only when the caller enumerates the lazy `Select`, which can be long after the call. The model gives every name from the same `now`, as a list computed when the call is made. It does not model the deferred evaluation, nor readings that differ or straddle midnight.
- `DiagnosticsSources.DiagnosticsSource.GetIndexNames`: the day count uses exact tick arithmetic, not the floating-point `TotalDays`. `AddDays` is treated as adding exact whole days of ticks, without its millisecond rounding.
- `TimeFormat.DayKey`: `ToString("yyyyMMdd")` at line 161 formats with the current culture's calendar. The model always uses the proleptic Gregorian calendar, which is what an invariant or Gregorian culture gives. A culture with another default calendar (for example Thai Buddhist or Hijri) would name other days.
- `DiagnosticsSources.DiagnosticsSource.GetIndexNames`: the last conversion of `(int)` to a 32-bit value is not modelled. Within the date range the day count never exceeds a 32-bit integer.
- A stored `DateTimeOffset` is modelled by its UTC instant. The offset a date property was written with, and the local time it would be formatted in, are not modelled. Dates are stored and formatted in UTC.
- `GetProperty<T>` and `SetProperty<T>` are modelled for the target types `string`, `int`, `int?`, `bool`, `bool?`, `DateTimeOffset` and `object`, through the `Target` datatype. Other generic instantiations are not modelled.
- A typed accessor of the storage SDK applied to a property of another type is modelled as a `TypeMismatch` failure. The SDK's own conversions between property types are not modelled.
- Property kinds this core never reads through a typed accessor are one opaque `VOther` kind: binary, double, Guid and Int64. That kind may hold null like the others, and a null one boxes to null. Its non-null values are not distinguished, and a cast of them to a typed target always fails.
- `DiagnosticsSourceSummary` is a value type here (`Summary`). The insertion order of its `Dictionary` is not modelled, since a map has no order.
- `Dictionary.Add` in `ToSummary` throws on a duplicate key. The entity's properties are a map, so keys are distinct and the throw cannot happen.

## Observations

`IndexNames.CursorDayListed` shows that the cursor's own day is one of the returned buckets only when the cursor's time of day is no later than `now`'s. When the cursor is later in its day, the oldest bucket is the day after the cursor's. This follows from the day count truncating toward zero. It is stated as the code behaves.
