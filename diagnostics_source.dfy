/**
 * A diagnostics source: a typed view over a schemaless table entity that
 * tells the collection pipeline what to collect, how often, and where it
 * last left off.  The view holds a reference to the entity, so every write
 * through it changes the entity in place.
 */
module DiagnosticsSources {
  import opened Wrappers
  import opened TimeFormat
  import opened PropertyBag
  import opened IndexNames

  const CustomAttributesFieldName := "CustomAttributes"

  /** A table entity: its compound key and its property bag. */
  class Entity {
    var partitionKey: Option<string>
    var rowKey: Option<string>
    var properties: Bag

    constructor (partitionKey: Option<string>, rowKey: Option<string>, properties: Bag)
      ensures this.partitionKey == partitionKey && this.rowKey == rowKey && this.properties == properties
    {
      this.partitionKey := partitionKey;
      this.rowKey := rowKey;
      this.properties := properties;
    }
  }

  /** A nullable string as C#'s `+` renders it: null as the empty string. */
  function Concatenable(s: Option<string>): (r: string)
    ensures s.None? ==> r == ""
    ensures s.Some? ==> r == s.value
  {
    if s.Some? then s.value else ""
  }

  /**
   * `ToTypeKey`: the alternate type name when one is stored, else the
   * partition key and the row key joined by `_`.
   */
  function TypeKeyOf(partitionKey: Option<string>, rowKey: Option<string>, bag: Bag): (r: Result<string, Error>)
    ensures "AlternateTypeName" in bag && bag["AlternateTypeName"].VString? && bag["AlternateTypeName"].str.Some?
      ==> r == Success(bag["AlternateTypeName"].str.value)
    ensures "AlternateTypeName" !in bag || bag["AlternateTypeName"] == VString(None)
      ==> r == Success(Concatenable(partitionKey) + "_" + Concatenable(rowKey))
    ensures "AlternateTypeName" in bag && !bag["AlternateTypeName"].VString? ==> r.Failure?
  {
    var alternate := GetStringValue(bag, "AlternateTypeName");
    if alternate.Failure? then Failure(alternate.error)
    else if alternate.value.Some? then Success(alternate.value.value)
    else Success(Concatenable(partitionKey) + "_" + Concatenable(rowKey))
  }

  /**
   * The type key depends on the keys and the alternate type name only:
   * writing or removing any other property, `CustomAttributes` among them,
   * leaves it as it was.
   */
  lemma TypeKeyIgnoresOtherProperties(partitionKey: Option<string>, rowKey: Option<string>, bag: Bag, name: string, v: Value)
    requires name != "AlternateTypeName"
    ensures TypeKeyOf(partitionKey, rowKey, bag[name := v]) == TypeKeyOf(partitionKey, rowKey, bag)
    ensures TypeKeyOf(partitionKey, rowKey, bag - {name}) == TypeKeyOf(partitionKey, rowKey, bag)
  {
  }

  function IndexNameOf(bag: Bag): Result<Option<string>, Error> {
    GetStringValue(bag, "IndexName")
  }

  function LastOffsetPointOf(bag: Bag): Result<Option<string>, Error> {
    GetStringValue(bag, "LastOffsetPoint")
  }

  /** `string.IsNullOrEmpty` */
  predicate IsNullOrEmpty(s: Option<string>): (b: bool)
    ensures b <==> Concatenable(s) == ""
  {
    s.None? || s.value == ""
  }

  /**
   * The cursor written for a source never scheduled before:
   * `UtcNow.AddDays(-daysToGoBack).ToString("O")`, or a failure when that
   * instant is out of range.
   */
  function InitialCursor(now: Instant, daysToGoBack: Int32): (r: Result<string, Error>)
    ensures r.Success? <==> InRange(now - daysToGoBack * TicksPerDay)
    ensures r.Failure? ==> r.error == OutOfRange
    ensures r.Success? ==> r.value == RoundTripText(now - daysToGoBack * TicksPerDay)
  {
    var start := now - daysToGoBack * TicksPerDay;
    if InRange(start) then
      Success(RoundTripText(start))
    else Failure(OutOfRange)
  }

  /**
   * The names for a stored cursor text: read it as an instant, fail if that
   * is not possible or if `now + 1 day` is out of range, else the day
   * buckets from the day after `now` back to the cursor.
   */
  function IndexNamesFromCursor(now: Instant, text: string): (r: Result<seq<string>, Error>)
    ensures ParseRoundTrip(text).None? ==> r == Failure(MalformedCursor(text))
    ensures ParseRoundTrip(text).Some? && !InRange(now + TicksPerDay) ==> r == Failure(OutOfRange)
    ensures ParseRoundTrip(text).Some? && InRange(now + TicksPerDay)
      ==> r == Success(IndexNamesFor(now, ParseRoundTrip(text).value))
  {
    match ParseRoundTrip(text)
    case None => Failure(MalformedCursor(text))
    case Some(cursor) =>
      if InRange(now + TicksPerDay) then Success(IndexNamesFor(now, cursor)) else Failure(OutOfRange)
  }

  /**
   * A freshly initialised cursor `daysToGoBack` days before `now` reads back
   * as that instant, so the names come from that instant.
   */
  lemma InitialCursorNames(now: Instant, daysToGoBack: Int32)
    requires InRange(now - daysToGoBack * TicksPerDay) && InRange(now + TicksPerDay)
    ensures InitialCursor(now, daysToGoBack) == Success(RoundTripText(now - daysToGoBack * TicksPerDay))
    ensures IndexNamesFromCursor(now, RoundTripText(now - daysToGoBack * TicksPerDay))
      == Success(IndexNamesFor(now, now - daysToGoBack * TicksPerDay))
  {
    var start := now - daysToGoBack * TicksPerDay;
    var text := RoundTripText(start);
    assert InitialCursor(now, daysToGoBack) == Success(text);
    ParseRoundTripText(start);
    assert ParseRoundTrip(text) == Some(start);
  }

  /**
   * A cursor `daysToGoBack` whole days before `now` yields `daysToGoBack + 2`
   * names (none when that is not positive): the day after `now`, today, and
   * each day back to the cursor's.
   */
  lemma DaysBackCount(now: Instant, daysToGoBack: int)
    requires InRange(now - daysToGoBack * TicksPerDay) && InRange(now + TicksPerDay)
    ensures daysToGoBack >= -1 ==> |IndexNamesFor(now, now - daysToGoBack * TicksPerDay)| == daysToGoBack + 2
    ensures daysToGoBack < -1 ==> IndexNamesFor(now, now - daysToGoBack * TicksPerDay) == []
  {
    var start := now - daysToGoBack * TicksPerDay;
    var span := (daysToGoBack + 1) * TicksPerDay;
    assert now + TicksPerDay - start == span;
    WholeDays(daysToGoBack + 1);
    IndexNamesCount(now, start);
  }

  /** A whole number of days divides back to that number. */
  lemma WholeDays(k: int)
    ensures (k * TicksPerDay) / TicksPerDay == k
    ensures k >= 0 <==> k * TicksPerDay >= 0
    ensures k <= -1 <==> k * TicksPerDay <= -TicksPerDay
  {
  }

  /**
   * What `GetIndexNames` does with no cursor stored: fail, changing nothing,
   * when the initial cursor is out of range; else store it and answer from it.
   */
  ghost predicate NeverScheduled(now: Instant, daysToGoBack: Int32, before: Bag, after: Bag, r: Result<seq<string>, Error>) {
    match InitialCursor(now, daysToGoBack)
    case Failure(e) => r == Failure(e) && after == before
    case Success(text) =>
      after == before["LastOffsetPoint" := VString(Some(text))] && r == IndexNamesFromCursor(now, text)
  }

  /**
   * `GetMappingName`: `GetProperty<string>("MappingName") ??
   * GetProperty<string>("TableName")`.
   */
  function MappingNameOf(bag: Bag): (r: Result<Option<string>, Error>)
    ensures "MappingName" in bag && bag["MappingName"].VString? && bag["MappingName"].str.Some?
      ==> r == Success(bag["MappingName"].str)
    ensures ("MappingName" !in bag || IsNull(bag["MappingName"]))
      ==> (if "TableName" !in bag || IsNull(bag["TableName"]) then r == Success(None)
           else if bag["TableName"].VString? then r == Success(bag["TableName"].str)
           else r == Failure(ConversionFailed("TableName", TString)))
    ensures "MappingName" in bag && Convert(PropertyAsObject(bag["MappingName"]), TString).None?
      ==> r == Failure(ConversionFailed("MappingName", TString))
  {
    var mapping := GetPropertyOf(bag, "MappingName", TString);
    if mapping.Failure? then Failure(mapping.error)
    else if mapping.value.BString? then Success(AsText(mapping.value))
    else
      var table := GetPropertyOf(bag, "TableName", TString);
      if table.Failure? then Failure(table.error) else Success(AsText(table.value))
  }

  /** The snapshot `ToSummary` hands to consumers that must not change the entity. */
  datatype Summary = Summary(
    connectionString: Option<string>,
    indexName: Option<string>,
    partitionKey: Option<string>,
    rowKey: Option<string>,
    typeName: string,
    dynamicProperties: map<string, Boxed>)

  /** The typed view over one entity. */
  class DiagnosticsSource {
    const entity: Entity

    constructor (entity: Entity)
      ensures this.entity == entity
    {
      this.entity := entity;
    }

    function SchedulerType(): (r: Result<Option<string>, Error>)
      reads entity
      ensures "SchedulerType" !in entity.properties ==> r == Success(None)
      ensures "SchedulerType" in entity.properties && entity.properties["SchedulerType"].VString?
        ==> r == Success(entity.properties["SchedulerType"].str)
    {
      GetStringValue(entity.properties, "SchedulerType")
    }

    function ConnectionString(): (r: Result<Option<string>, Error>)
      reads entity
      ensures "ConnectionString" !in entity.properties ==> r == Success(None)
      ensures "ConnectionString" in entity.properties && entity.properties["ConnectionString"].VString?
        ==> r == Success(entity.properties["ConnectionString"].str)
    {
      GetStringValue(entity.properties, "ConnectionString")
    }

    function CustomAttributes(): (r: Result<Option<string>, Error>)
      reads entity
      ensures CustomAttributesFieldName !in entity.properties ==> r == Success(None)
      ensures CustomAttributesFieldName in entity.properties && entity.properties[CustomAttributesFieldName].VString?
        ==> r == Success(entity.properties[CustomAttributesFieldName].str)
    {
      GetStringValue(entity.properties, CustomAttributesFieldName)
    }

    function ErrorMessage(): (r: Result<Option<string>, Error>)
      reads entity
      ensures "ErrorMessage" !in entity.properties ==> r == Success(None)
      ensures "ErrorMessage" in entity.properties && entity.properties["ErrorMessage"].VString?
        ==> r == Success(entity.properties["ErrorMessage"].str)
    {
      GetStringValue(entity.properties, "ErrorMessage")
    }

    method SetErrorMessage(value: Option<string>)
      modifies entity
      ensures entity.properties == old(entity.properties)["ErrorMessage" := VString(value)]
      ensures entity.partitionKey == old(entity.partitionKey) && entity.rowKey == old(entity.rowKey)
      ensures ErrorMessage() == Success(value)
    {
      entity.properties := entity.properties["ErrorMessage" := VString(value)];
    }

    function LastScheduled(): (r: Result<Option<Instant>, Error>)
      reads entity
      ensures "LastScheduled" !in entity.properties ==> r == Success(None)
      ensures "LastScheduled" in entity.properties && entity.properties["LastScheduled"].VTime?
        ==> r == Success(entity.properties["LastScheduled"].ticks)
    {
      GetDateTimeValue(entity.properties, "LastScheduled")
    }

    method SetLastScheduled(value: Option<Instant>)
      modifies entity
      ensures entity.properties == old(entity.properties)["LastScheduled" := VTime(value)]
      ensures entity.partitionKey == old(entity.partitionKey) && entity.rowKey == old(entity.rowKey)
      ensures LastScheduled() == Success(value)
    {
      entity.properties := entity.properties["LastScheduled" := VTime(value)];
    }

    function LastOffsetPoint(): (r: Result<Option<string>, Error>)
      reads entity
      ensures r == LastOffsetPointOf(entity.properties)
      ensures "LastOffsetPoint" !in entity.properties ==> r == Success(None)
      ensures "LastOffsetPoint" in entity.properties && entity.properties["LastOffsetPoint"].VString?
        ==> r == Success(entity.properties["LastOffsetPoint"].str)
    {
      GetStringValue(entity.properties, "LastOffsetPoint")
    }

    method SetLastOffsetPoint(value: Option<string>)
      modifies entity
      ensures entity.properties == old(entity.properties)["LastOffsetPoint" := VString(value)]
      ensures entity.partitionKey == old(entity.partitionKey) && entity.rowKey == old(entity.rowKey)
      ensures LastOffsetPoint() == Success(value)
    {
      entity.properties := entity.properties["LastOffsetPoint" := VString(value)];
    }

    function StopOffsetPoint(): (r: Result<Option<string>, Error>)
      reads entity
      ensures "StopOffsetPoint" !in entity.properties ==> r == Success(None)
      ensures "StopOffsetPoint" in entity.properties && entity.properties["StopOffsetPoint"].VString?
        ==> r == Success(entity.properties["StopOffsetPoint"].str)
    {
      GetStringValue(entity.properties, "StopOffsetPoint")
    }

    /**
     * Minutes after which, with no entry found, a run is taken as done and
     * anything there was has reached table storage; 5 when not set.
     */
    function GracePeriodMinutes(): (r: Result<Option<Int32>, Error>)
      reads entity
      ensures "GracePeriodMinutes" !in entity.properties ==> r == Success(Some(5))
      ensures "GracePeriodMinutes" in entity.properties && entity.properties["GracePeriodMinutes"].VInt?
        ==> r == Success(entity.properties["GracePeriodMinutes"].int32)
    {
      GetIntValue(entity.properties, "GracePeriodMinutes", Some(5))
    }

    function SchedulingFrequencyMinutes(): (r: Result<Option<Int32>, Error>)
      reads entity
      ensures "SchedulingFrequencyMinutes" !in entity.properties ==> r == Success(Some(1))
      ensures "SchedulingFrequencyMinutes" in entity.properties && entity.properties["SchedulingFrequencyMinutes"].VInt?
        ==> r == Success(entity.properties["SchedulingFrequencyMinutes"].int32)
    {
      GetIntValue(entity.properties, "SchedulingFrequencyMinutes", Some(1))
    }

    function MaxItemsInAScheduleRun(): (r: Result<Option<Int32>, Error>)
      reads entity
      ensures "MaxItemsInAScheduleRun" !in entity.properties ==> r == Success(None)
      ensures "MaxItemsInAScheduleRun" in entity.properties && entity.properties["MaxItemsInAScheduleRun"].VInt?
        ==> r == Success(entity.properties["MaxItemsInAScheduleRun"].int32)
    {
      GetIntValue(entity.properties, "MaxItemsInAScheduleRun")
    }

    function IsActive(): (r: Result<Option<bool>, Error>)
      reads entity
      ensures "IsActive" !in entity.properties ==> r == Success(Some(true))
      ensures "IsActive" in entity.properties && entity.properties["IsActive"].VBool?
        ==> r == Success(entity.properties["IsActive"].boolean)
    {
      GetBooleanValue(entity.properties, "IsActive", Some(true))
    }

    function ToTypeKey(): (r: Result<string, Error>)
      reads entity
      ensures AlternateTypeName().Success? && AlternateTypeName().value.Some? ==> r == Success(AlternateTypeName().value.value)
      ensures AlternateTypeName() == Success(None) ==> r == Success(Concatenable(PartitionKey()) + "_" + Concatenable(RowKey()))
      ensures AlternateTypeName().Failure? ==> r == Failure(AlternateTypeName().error)
    {
      TypeKeyOf(entity.partitionKey, entity.rowKey, entity.properties)
    }

    function PartitionKey(): Option<string>
      reads entity
    {
      entity.partitionKey
    }

    method SetPartitionKey(value: Option<string>)
      modifies entity
      ensures entity.partitionKey == value
      ensures entity.rowKey == old(entity.rowKey) && entity.properties == old(entity.properties)
      ensures PartitionKey() == value
    {
      entity.partitionKey := value;
    }

    function RowKey(): Option<string>
      reads entity
    {
      entity.rowKey
    }

    method SetRowKey(value: Option<string>)
      modifies entity
      ensures entity.rowKey == value
      ensures entity.partitionKey == old(entity.partitionKey) && entity.properties == old(entity.properties)
      ensures RowKey() == value
    {
      entity.rowKey := value;
    }

    function IndexName(): (r: Result<Option<string>, Error>)
      reads entity
      ensures r == IndexNameOf(entity.properties)
      ensures "IndexName" !in entity.properties ==> r == Success(None)
      ensures "IndexName" in entity.properties && entity.properties["IndexName"].VString?
        ==> r == Success(entity.properties["IndexName"].str)
    {
      GetStringValue(entity.properties, "IndexName")
    }

    function AlternateTypeName(): (r: Result<Option<string>, Error>)
      reads entity
      ensures "AlternateTypeName" !in entity.properties ==> r == Success(None)
      ensures "AlternateTypeName" in entity.properties && entity.properties["AlternateTypeName"].VString?
        ==> r == Success(entity.properties["AlternateTypeName"].str)
    {
      if "AlternateTypeName" in entity.properties
      then StringValue("AlternateTypeName", entity.properties["AlternateTypeName"])
      else Success(None)
    }

    /** `ToEntity`: the entity itself, shared with this view rather than copied. */
    function ToEntity(): Entity {
      entity
    }

    /** `GetProperty<T>(name)` */
    function GetProperty(name: string, t: Target): (r: Result<Boxed, Error>)
      reads entity
      ensures name !in entity.properties ==> r == Success(DefaultOf(t))
      ensures r.Success? ==> HasType(r.value, t)
      ensures r.Failure? <==> name in entity.properties && Convert(PropertyAsObject(entity.properties[name]), t).None?
      ensures r.Failure? ==> r.error == ConversionFailed(name, t)
      ensures name in entity.properties && r.Success?
        ==> Some(r.value) == Convert(PropertyAsObject(entity.properties[name]), t)
    {
      GetPropertyOf(entity.properties, name, t)
    }

    /** `SetProperty<T>(name, value)` */
    method SetProperty(name: string, value: Boxed)
      modifies entity
      ensures entity.properties == old(entity.properties)[name := FromObject(value)]
      ensures entity.partitionKey == old(entity.partitionKey) && entity.rowKey == old(entity.rowKey)
      ensures forall t :: (HasType(value, t) && !(value.BDateTimeOffset? && t == TObject)
                           ==> GetProperty(name, t) == Success(value))
    {
      ghost var before := entity.properties;
      entity.properties := entity.properties[name := FromObject(value)];
      forall t | HasType(value, t) && !(value.BDateTimeOffset? && t == TObject)
        ensures GetProperty(name, t) == Success(value)
      {
        SetThenGetProperty(before, name, value, t, name, t);
      }
    }

    function GetMappingName(): (r: Result<Option<string>, Error>)
      reads entity
      ensures GetProperty("MappingName", TString).Failure? ==> r == Failure(GetProperty("MappingName", TString).error)
      ensures GetProperty("MappingName", TString).Success? && GetProperty("MappingName", TString).value != Null
        ==> r == Success(AsText(GetProperty("MappingName", TString).value))
      ensures GetProperty("MappingName", TString) == Success(Null)
        ==> match GetProperty("TableName", TString)
            case Failure(e) => r == Failure(e)
            case Success(o) => r == Success(AsText(o))
    {
      MappingNameOf(entity.properties)
    }

    /**
     * `GetIndexNames`: the configured index name alone when there is one;
     * otherwise the day buckets from the day after `now` back to the stored
     * cursor, writing a cursor `daysToGoBack` days before `now` first when
     * none is stored.  `now` is the one instant the clock is read at.
     */
    method GetIndexNames(now: Instant, daysToGoBack: Int32 := 7) returns (r: Result<seq<string>, Error>)
      modifies entity
      ensures entity.partitionKey == old(entity.partitionKey) && entity.rowKey == old(entity.rowKey)
      ensures IndexNameOf(old(entity.properties)).Failure?
        ==> r == Failure(IndexNameOf(old(entity.properties)).error) && entity.properties == old(entity.properties)
      ensures IndexNameOf(old(entity.properties)).Success? && !IsNullOrEmpty(IndexNameOf(old(entity.properties)).value)
        ==> r == Success([IndexNameOf(old(entity.properties)).value.value]) && entity.properties == old(entity.properties)
      ensures IndexNameOf(old(entity.properties)) == Success(None) || IndexNameOf(old(entity.properties)) == Success(Some(""))
        ==> match LastOffsetPointOf(old(entity.properties))
            case Failure(e) => r == Failure(e) && entity.properties == old(entity.properties)
            case Success(Some(text)) =>
              if text != "" then r == IndexNamesFromCursor(now, text) && entity.properties == old(entity.properties)
              else NeverScheduled(now, daysToGoBack, old(entity.properties), entity.properties, r)
            case Success(None) => NeverScheduled(now, daysToGoBack, old(entity.properties), entity.properties, r)
      ensures r.Success? && IndexNameOf(entity.properties).Success? && IsNullOrEmpty(IndexNameOf(entity.properties).value)
        ==> LastOffsetPointOf(entity.properties).Success? && !IsNullOrEmpty(LastOffsetPointOf(entity.properties).value)
    {
      var indexName := IndexName();
      if indexName.Failure? {
        return Failure(indexName.error);
      }
      if !IsNullOrEmpty(indexName.value) {
        return Success([indexName.value.value]);
      }
      var cursor := LastOffsetPoint();
      if cursor.Failure? {
        return Failure(cursor.error);
      }
      if IsNullOrEmpty(cursor.value) {
        var initial := InitialCursor(now, daysToGoBack);
        if initial.Failure? {
          return Failure(initial.error);
        }
        SetLastOffsetPoint(Some(initial.value));
        cursor := LastOffsetPoint();
      }
      r := IndexNamesFromCursor(now, cursor.value.value);
    }

    /**
     * `ToSummary`: a detached copy of the typed fields and of every stored
     * property as a plain object; it fails where reading one of the typed
     * fields fails, in the order the fields are read.
     */
    method ToSummary() returns (r: Result<Summary, Error>)
      ensures ConnectionString().Failure? ==> r == Failure(ConnectionString().error)
      ensures ConnectionString().Success? && IndexName().Failure? ==> r == Failure(IndexName().error)
      ensures ConnectionString().Success? && IndexName().Success? && ToTypeKey().Failure?
        ==> r == Failure(ToTypeKey().error)
      ensures r.Success? <==> ConnectionString().Success? && IndexName().Success? && ToTypeKey().Success?
      ensures r.Success? ==>
        && r.value.connectionString == ConnectionString().value
        && r.value.indexName == IndexName().value
        && r.value.partitionKey == entity.partitionKey
        && r.value.rowKey == entity.rowKey
        && r.value.typeName == ToTypeKey().value
        && r.value.dynamicProperties.Keys == entity.properties.Keys
        && forall k :: k in r.value.dynamicProperties ==> r.value.dynamicProperties[k] == PropertyAsObject(entity.properties[k])
    {
      var connectionString := ConnectionString();
      if connectionString.Failure? {
        return Failure(connectionString.error);
      }
      var indexName := IndexName();
      if indexName.Failure? {
        return Failure(indexName.error);
      }
      var typeName := ToTypeKey();
      if typeName.Failure? {
        return Failure(typeName.error);
      }
      var dynamicProperties: map<string, Boxed> := map[];
      var remaining := entity.properties.Keys;
      while remaining != {}
        invariant remaining <= entity.properties.Keys
        invariant dynamicProperties.Keys == entity.properties.Keys - remaining
        invariant forall k :: k in dynamicProperties ==> dynamicProperties[k] == PropertyAsObject(entity.properties[k])
        decreases |remaining|
      {
        var k :| k in remaining;
        dynamicProperties := dynamicProperties[k := PropertyAsObject(entity.properties[k])];
        remaining := remaining - {k};
      }
      r := Success(Summary(connectionString.value, indexName.value, PartitionKey(), RowKey(),
                           typeName.value, dynamicProperties));
    }
  }
}
