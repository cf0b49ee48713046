/** The runtime-defined entity (RDE) of a cluster, as JSON, and the typed records inside it.

    A persistent volume is listed either in the legacy list `status.persistentVolumes` (ids
    only) or in the resource set `status.csi.vcdResourceSet` (id, name and type). */
module Documents {
  import opened Wrappers

  const STATUS := "status"
  const PERSISTENT_VOLUMES := "persistentVolumes"
  const CSI := "csi"
  const NAME := "name"
  const VERSION := "version"
  const RESOURCE_SET := "vcdResourceSet"
  const ERROR_SET := "errorSet"
  const EVENT_SET := "eventSet"
  const TYPE := "type"
  const ID := "id"
  const DETAILS := "additionalDetails"
  const OCCURRED_AT := "occurredAt"
  const RESOURCE_ID := "vcdResourceId"
  const RESOURCE_NAME := "vcdResourceName"

  const CSI_NAME := "cloud-director-named-disk-csi-driver"
  const NAMED_DISK := "named-disk"
  const ZERO_TIME := "0001-01-01T00:00:00Z"

  datatype Json =
    | Null
    | Bool(b: bool)
    | Number(n: int)
    | Str(s: string)
    | Arr(items: seq<Json>)
    | Obj(fields: map<string, Json>)

  type Fields = map<string, Json>

  datatype EntityKind = Native | Capvcd | Unsupported

  datatype Rde = Rde(kind: EntityKind, entity: Fields)

  datatype Resource = Resource(kind: string, id: string, name: string, details: Fields)

  /** BackendError and BackendEvent have the same fields. */
  datatype Notice = Notice(name: string, occurredAt: string, resourceId: string, resourceName: string, details: Fields)

  datatype CsiStatus = CsiStatus(
    name: string, version: string, errors: seq<Notice>, events: seq<Notice>, resources: seq<Resource>)

  // ----- decoding: a missing or null field is the zero value, a wrong type an error -----

  function StringField(m: Fields, key: string, zero: string): Result<string> {
    if key !in m || m[key].Null? then Ok(zero)
    else if m[key].Str? then Ok(m[key].s)
    else Err
  }

  function ObjectField(m: Fields, key: string): Result<Fields> {
    if key !in m || m[key].Null? then Ok(map[])
    else if m[key].Obj? then Ok(m[key].fields)
    else Err
  }

  function ListField(m: Fields, key: string): Result<seq<Json>> {
    if key !in m || m[key].Null? then Ok([])
    else if m[key].Arr? then Ok(m[key].items)
    else Err
  }

  function FieldsOf(j: Json): Result<Fields> {
    match j
    case Null => Ok(map[])
    case Obj(fields) => Ok(fields)
    case _ => Err
  }

  function DecodeResource(j: Json): Result<Resource> {
    var m :- FieldsOf(j);
    var kind :- StringField(m, TYPE, "");
    var id :- StringField(m, ID, "");
    var name :- StringField(m, NAME, "");
    var details :- ObjectField(m, DETAILS);
    Ok(Resource(kind, id, name, details))
  }

  function DecodeNotice(j: Json): Result<Notice> {
    var m :- FieldsOf(j);
    var name :- StringField(m, NAME, "");
    var occurredAt :- StringField(m, OCCURRED_AT, ZERO_TIME);
    var resourceId :- StringField(m, RESOURCE_ID, "");
    var resourceName :- StringField(m, RESOURCE_NAME, "");
    var details :- ObjectField(m, DETAILS);
    Ok(Notice(name, occurredAt, resourceId, resourceName, details))
  }

  function DecodeAll<T>(items: seq<Json>, decode: Json -> Result<T>): Result<seq<T>> {
    if items == [] then Ok([])
    else
      var first :- decode(items[0]);
      var rest :- DecodeAll(items[1..], decode);
      Ok([first] + rest)
  }

  function DecodeResources(m: Fields): Result<seq<Resource>> {
    var items :- ListField(m, RESOURCE_SET);
    DecodeAll(items, DecodeResource)
  }

  function DecodeNotices(m: Fields, key: string): Result<seq<Notice>> {
    var items :- ListField(m, key);
    DecodeAll(items, DecodeNotice)
  }

  function DecodeStatus(m: Fields): Result<CsiStatus> {
    var name :- StringField(m, NAME, "");
    var version :- StringField(m, VERSION, "");
    var errors :- DecodeNotices(m, ERROR_SET);
    var events :- DecodeNotices(m, EVENT_SET);
    var resources :- DecodeResources(m);
    Ok(CsiStatus(name, version, errors, events, resources))
  }

  // ----- encoding: `omitempty` fields appear only when they are not empty -----

  function StringEntry(s: string): Option<Json> {
    if s == "" then None else Some(Str(s))
  }

  function ObjectEntry(m: Fields): Option<Json> {
    if m == map[] then None else Some(Obj(m))
  }

  function ResourceField(r: Resource, key: string): Option<Json> {
    if key == TYPE then StringEntry(r.kind)
    else if key == ID then StringEntry(r.id)
    else if key == NAME then StringEntry(r.name)
    else if key == DETAILS then ObjectEntry(r.details)
    else None
  }

  function EncodeResource(r: Resource): Json {
    Obj(map key | key in {TYPE, ID, NAME, DETAILS} && ResourceField(r, key).Some? :: ResourceField(r, key).value)
  }

  /** A time is always written out, even the zero time. */
  function NoticeField(n: Notice, key: string): Option<Json> {
    if key == NAME then StringEntry(n.name)
    else if key == OCCURRED_AT then Some(Str(n.occurredAt))
    else if key == RESOURCE_ID then StringEntry(n.resourceId)
    else if key == RESOURCE_NAME then StringEntry(n.resourceName)
    else if key == DETAILS then ObjectEntry(n.details)
    else None
  }

  function EncodeNotice(n: Notice): Json {
    Obj(map key | key in {NAME, OCCURRED_AT, RESOURCE_ID, RESOURCE_NAME, DETAILS} && NoticeField(n, key).Some?
          :: NoticeField(n, key).value)
  }

  function EncodeAll<T>(xs: seq<T>, encode: T -> Json): (items: seq<Json>)
    ensures |items| == |xs|
  {
    if xs == [] then [] else [encode(xs[0])] + EncodeAll(xs[1..], encode)
  }

  function EncodeResources(rs: seq<Resource>): Json {
    Arr(EncodeAll(rs, EncodeResource))
  }

  function StatusField(s: CsiStatus, key: string): Option<Json> {
    if key == NAME then StringEntry(s.name)
    else if key == VERSION then StringEntry(s.version)
    else if key == ERROR_SET then (if s.errors == [] then None else Some(Arr(EncodeAll(s.errors, EncodeNotice))))
    else if key == EVENT_SET then (if s.events == [] then None else Some(Arr(EncodeAll(s.events, EncodeNotice))))
    else if key == RESOURCE_SET then (if s.resources == [] then None else Some(EncodeResources(s.resources)))
    else None
  }

  function EncodeStatus(s: CsiStatus): Fields {
    map key | key in {NAME, VERSION, ERROR_SET, EVENT_SET, RESOURCE_SET} && StatusField(s, key).Some?
      :: StatusField(s, key).value
  }

  // ----- round trips -----

  lemma KeysDiffer()
    ensures NAME != VERSION && NAME != ERROR_SET && NAME != EVENT_SET && NAME != RESOURCE_SET
    ensures VERSION != ERROR_SET && VERSION != EVENT_SET && VERSION != RESOURCE_SET
    ensures ERROR_SET != EVENT_SET && ERROR_SET != RESOURCE_SET && EVENT_SET != RESOURCE_SET
    ensures TYPE != ID && TYPE != NAME && TYPE != DETAILS && ID != NAME && ID != DETAILS && NAME != DETAILS
    ensures OCCURRED_AT != NAME && OCCURRED_AT != RESOURCE_ID && OCCURRED_AT != RESOURCE_NAME && OCCURRED_AT != DETAILS
    ensures RESOURCE_ID != NAME && RESOURCE_ID != RESOURCE_NAME && RESOURCE_ID != DETAILS
    ensures RESOURCE_NAME != NAME && RESOURCE_NAME != DETAILS
    ensures PERSISTENT_VOLUMES != CSI
  {
    assert NAME[0] == 'n' && VERSION[0] == 'v' && ERROR_SET[1] == 'r' && EVENT_SET[1] == 'v' && TYPE[0] == 't';
    assert |NAME| == 4 && |VERSION| == 7 && |ERROR_SET| == 8 && |EVENT_SET| == 8 && |RESOURCE_SET| == 14;
    assert |ID| == 2 && |DETAILS| == 17 && |OCCURRED_AT| == 10 && |RESOURCE_ID| == 13 && |RESOURCE_NAME| == 15;
    assert |PERSISTENT_VOLUMES| == 17 && |CSI| == 3;
  }

  lemma ResourceRoundTrip(r: Resource)
    ensures DecodeResource(EncodeResource(r)) == Ok(r)
  {
    KeysDiffer();
  }

  lemma NoticeRoundTrip(n: Notice)
    ensures DecodeNotice(EncodeNotice(n)) == Ok(n)
  {
    KeysDiffer();
  }

  lemma {:induction false} ListRoundTrip<T>(xs: seq<T>, encode: T -> Json, decode: Json -> Result<T>)
    requires forall x :: x in xs ==> decode(encode(x)) == Ok(x)
    ensures DecodeAll(EncodeAll(xs, encode), decode) == Ok(xs)
  {
    if xs != [] {
      ListRoundTrip(xs[1..], encode, decode);
      assert [xs[0]] + xs[1..] == xs;
      assert EncodeAll(xs, encode)[1..] == EncodeAll(xs[1..], encode);
    }
  }

  lemma ResourcesRoundTrip(rs: seq<Resource>)
    ensures DecodeAll(EncodeAll(rs, EncodeResource), DecodeResource) == Ok(rs)
  {
    forall r | r in rs ensures DecodeResource(EncodeResource(r)) == Ok(r) {
      ResourceRoundTrip(r);
    }
    ListRoundTrip(rs, EncodeResource, DecodeResource);
  }

  lemma NoticesRoundTrip(ns: seq<Notice>)
    ensures DecodeAll(EncodeAll(ns, EncodeNotice), DecodeNotice) == Ok(ns)
  {
    forall n | n in ns ensures DecodeNotice(EncodeNotice(n)) == Ok(n) {
      NoticeRoundTrip(n);
    }
    ListRoundTrip(ns, EncodeNotice, DecodeNotice);
  }

  lemma NoticesFieldRoundTrip(m: Fields, key: string, ns: seq<Notice>)
    requires key in m <==> ns != []
    requires key in m ==> m[key] == Arr(EncodeAll(ns, EncodeNotice))
    ensures DecodeNotices(m, key) == Ok(ns)
  {
    NoticesRoundTrip(ns);
  }

  lemma ResourcesFieldRoundTrip(m: Fields, rs: seq<Resource>)
    requires RESOURCE_SET in m <==> rs != []
    requires RESOURCE_SET in m ==> m[RESOURCE_SET] == EncodeResources(rs)
    ensures DecodeResources(m) == Ok(rs)
  {
    ResourcesRoundTrip(rs);
  }

  lemma EncodedStrings(s: CsiStatus)
    ensures StringField(EncodeStatus(s), NAME, "") == Ok(s.name)
    ensures StringField(EncodeStatus(s), VERSION, "") == Ok(s.version)
  {
    KeysDiffer();
  }

  /** Status to map and back is the identity. */
  lemma StatusRoundTrip(s: CsiStatus)
    ensures DecodeStatus(EncodeStatus(s)) == Ok(s)
  {
    var m := EncodeStatus(s);
    EncodedStrings(s);
    KeysDiffer();
    NoticesFieldRoundTrip(m, ERROR_SET, s.errors);
    NoticesFieldRoundTrip(m, EVENT_SET, s.events);
    ResourcesFieldRoundTrip(m, s.resources);
  }

  // ----- the records as they stand in the JSON -----

  /** A text field that is left out when it is empty. */
  predicate HasText(m: Fields, key: string, s: string) {
    if s == "" then key !in m else key in m && m[key] == Str(s)
  }

  predicate HasObject(m: Fields, key: string, fields: Fields) {
    if fields == map[] then key !in m else key in m && m[key] == Obj(fields)
  }

  lemma ResourceInJson(r: Resource)
    ensures EncodeResource(r).Obj? && EncodeResource(r).fields.Keys <= {"type", "id", "name", "additionalDetails"}
    ensures var m := EncodeResource(r).fields;
            && HasText(m, "type", r.kind) && HasText(m, "id", r.id) && HasText(m, "name", r.name)
            && HasObject(m, "additionalDetails", r.details)
  {
    KeysDiffer();
  }

  lemma NoticeInJson(n: Notice)
    ensures EncodeNotice(n).Obj?
    ensures EncodeNotice(n).fields.Keys
            <= {"name", "occurredAt", "vcdResourceId", "vcdResourceName", "additionalDetails"}
    ensures var m := EncodeNotice(n).fields;
            && HasText(m, "name", n.name) && "occurredAt" in m && m["occurredAt"] == Str(n.occurredAt)
            && HasText(m, "vcdResourceId", n.resourceId) && HasText(m, "vcdResourceName", n.resourceName)
            && HasObject(m, "additionalDetails", n.details)
  {
    KeysDiffer();
  }

  /** Sets of records stand under their keys, in order, unless they are empty. */
  predicate HasRecords<T>(m: Fields, key: string, xs: seq<T>, encode: T -> Json) {
    if xs == [] then key !in m
    else
      && key in m && m[key].Arr? && |m[key].items| == |xs|
      && forall i | 0 <= i < |xs| :: m[key].items[i] == encode(xs[i])
  }

  lemma {:induction false} EncodeAllAt<T>(xs: seq<T>, encode: T -> Json)
    ensures forall i | 0 <= i < |xs| :: EncodeAll(xs, encode)[i] == encode(xs[i])
  {
    if xs != [] {
      EncodeAllAt(xs[1..], encode);
    }
  }

  lemma StatusInJson(s: CsiStatus)
    ensures EncodeStatus(s).Keys <= {"name", "version", "errorSet", "eventSet", "vcdResourceSet"}
    ensures var m := EncodeStatus(s);
            && HasText(m, "name", s.name) && HasText(m, "version", s.version)
            && HasRecords(m, "errorSet", s.errors, EncodeNotice) && HasRecords(m, "eventSet", s.events, EncodeNotice)
            && HasRecords(m, "vcdResourceSet", s.resources, EncodeResource)
  {
    KeysDiffer();
    EncodeAllAt(s.errors, EncodeNotice);
    EncodeAllAt(s.events, EncodeNotice);
    EncodeAllAt(s.resources, EncodeResource);
  }

  // ----- what can be decoded -----

  /** Missing, null, or of the right type. */
  predicate TextOrNone(m: Fields, key: string) {
    key in m ==> m[key].Null? || m[key].Str?
  }

  predicate ObjectOrNone(m: Fields, key: string) {
    key in m ==> m[key].Null? || m[key].Obj?
  }

  lemma DecodeResourceIff(m: Fields)
    ensures DecodeResource(Obj(m)).Ok? <==>
            TextOrNone(m, "type") && TextOrNone(m, "id") && TextOrNone(m, "name")
            && ObjectOrNone(m, "additionalDetails")
    ensures DecodeResource(Null) == Ok(Resource("", "", "", map[]))
    ensures forall j: Json | !j.Null? && !j.Obj? :: DecodeResource(j).Err?
  {
  }

  lemma DecodeNoticeIff(m: Fields)
    ensures DecodeNotice(Obj(m)).Ok? <==>
            TextOrNone(m, "name") && TextOrNone(m, "occurredAt") && TextOrNone(m, "vcdResourceId")
            && TextOrNone(m, "vcdResourceName") && ObjectOrNone(m, "additionalDetails")
    ensures forall j: Json | !j.Null? && !j.Obj? :: DecodeNotice(j).Err?
  {
  }

  /** An array is decoded element by element, or not at all. */
  lemma {:induction false} DecodeAllIff<T>(items: seq<Json>, decode: Json -> Result<T>)
    ensures DecodeAll(items, decode).Ok? <==> forall i | 0 <= i < |items| :: decode(items[i]).Ok?
    ensures DecodeAll(items, decode).Ok? ==>
              && |DecodeAll(items, decode).value| == |items|
              && forall i | 0 <= i < |items| :: decode(items[i]) == Ok(DecodeAll(items, decode).value[i])
  {
    if items != [] {
      DecodeAllIff(items[1..], decode);
      assert forall i | 0 < i < |items| :: items[i] == items[1..][i - 1];
      if forall i | 0 <= i < |items| :: decode(items[i]).Ok? {
        assert decode(items[0]).Ok?;
        assert forall i | 0 <= i < |items[1..]| :: items[1..][i] == items[i + 1];
      }
    }
  }

  predicate RecordsOrNone<T>(m: Fields, key: string, decode: Json -> Result<T>) {
    key in m ==>
      m[key].Null? || (m[key].Arr? && forall i | 0 <= i < |m[key].items| :: decode(m[key].items[i]).Ok?)
  }

  lemma DecodeStatusIff(m: Fields)
    ensures DecodeStatus(m).Ok? <==>
            && TextOrNone(m, "name") && TextOrNone(m, "version")
            && RecordsOrNone(m, "errorSet", DecodeNotice) && RecordsOrNone(m, "eventSet", DecodeNotice)
            && RecordsOrNone(m, "vcdResourceSet", DecodeResource)
  {
    if "errorSet" in m && m["errorSet"].Arr? {
      DecodeAllIff(m["errorSet"].items, DecodeNotice);
    }
    if "eventSet" in m && m["eventSet"].Arr? {
      DecodeAllIff(m["eventSet"].items, DecodeNotice);
    }
    if "vcdResourceSet" in m && m["vcdResourceSet"].Arr? {
      DecodeAllIff(m["vcdResourceSet"].items, DecodeResource);
    }
  }
}
