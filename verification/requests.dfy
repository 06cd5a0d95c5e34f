/** The job record of the discovery service and its document form
    (`src/simod_http/requests.py`): the status and notification enums,
    the `JobRequest` record with its id accessors, the recursive pruning of
    `None` values, and the serialisation `to_dict`.

    Python dicts are modelled as association lists, `seq<Field>`, so that
    insertion order is visible; a dict built by Python never repeats a key,
    which `UniqueKeys` states where a property depends on it. */
module Requests {
  import opened Results

  // ---------------------------------------------------------------------
  // Enumerations
  // ---------------------------------------------------------------------

  /** Lifecycle of a job request. It is a `str` enum: each member is
      serialised as its wire string. */
  datatype RequestStatus = Unknown | Accepted | Pending | Running | Succeeded | Failed | Deleted

  /** The wire string (enum value) of a status: the entry of the value
      table at the member's position in declaration order. */
  function StatusWire(s: RequestStatus): (w: string)
    ensures forall i | 0 <= i < |AllStatuses| && AllStatuses[i] == s :: i < |StatusWires| && w == StatusWires[i]
  {
    match s
    case Unknown => "unknown"
    case Accepted => "accepted"
    case Pending => "pending"
    case Running => "running"
    case Succeeded => "succeeded"
    case Failed => "failed"
    case Deleted => "deleted"
  }

  /** The members in declaration order. */
  const AllStatuses: seq<RequestStatus> :=
    [Unknown, Accepted, Pending, Running, Succeeded, Failed, Deleted]

  /** The wire strings in declaration order. */
  const StatusWires: seq<string> :=
    ["unknown", "accepted", "pending", "running", "succeeded", "failed", "deleted"]

  /** Lookup by value, `RequestStatus(w)`; `None` where Python raises
      `ValueError` because no member has that value. */
  function StatusFromWire(w: string): (r: Option<RequestStatus>)
    ensures r.Some? ==> StatusWire(r.value) == w
    ensures r.None? ==> forall s :: StatusWire(s) != w
  {
    if w == "unknown" then Some(Unknown)
    else if w == "accepted" then Some(Accepted)
    else if w == "pending" then Some(Pending)
    else if w == "running" then Some(Running)
    else if w == "succeeded" then Some(Succeeded)
    else if w == "failed" then Some(Failed)
    else if w == "deleted" then Some(Deleted)
    else None
  }

  /** The enum has exactly seven members, listed with their wire strings,
      and distinct members have distinct wire strings. */
  lemma StatusMembers()
    ensures |AllStatuses| == 7 && |StatusWires| == 7
    ensures forall s :: s in AllStatuses
    ensures forall i | 0 <= i < 7 :: StatusWire(AllStatuses[i]) == StatusWires[i]
    ensures forall s, t :: StatusWire(s) == StatusWire(t) ==> s == t
  {
    forall s: RequestStatus
      ensures s in AllStatuses
    {
      match s
      case Unknown => assert AllStatuses[0] == s;
      case Accepted => assert AllStatuses[1] == s;
      case Pending => assert AllStatuses[2] == s;
      case Running => assert AllStatuses[3] == s;
      case Succeeded => assert AllStatuses[4] == s;
      case Failed => assert AllStatuses[5] == s;
      case Deleted => assert AllStatuses[6] == s;
    }
    forall s, t | StatusWire(s) == StatusWire(t)
      ensures s == t
    {
      StatusWireRoundTrip(s);
      StatusWireRoundTrip(t);
    }
  }

  /** Looking a status up by its own wire string gives it back. */
  lemma StatusWireRoundTrip(s: RequestStatus)
    ensures StatusFromWire(StatusWire(s)) == Some(s)
  {
  }

  /** How a client asks to be told that its job finished. */
  datatype NotificationMethod = Http | Email

  /** The wire string (enum value) of a notification method. */
  function MethodWire(m: NotificationMethod): (w: string)
    ensures w == "callback" || w == "email"
    ensures (w == "callback") <==> m == Http
  {
    match m
    case Http => "callback"
    case Email => "email"
  }

  /** Lookup by value, `NotificationMethod(w)`; `None` where Python raises
      `ValueError` because no member has that value. */
  function MethodFromWire(w: string): (r: Option<NotificationMethod>)
    ensures r.Some? ==> MethodWire(r.value) == w
    ensures r.None? ==> forall m :: MethodWire(m) != w
  {
    if w == "callback" then Some(Http)
    else if w == "email" then Some(Email)
    else None
  }

  /** Looking a method up by its own wire string gives it back, so distinct
      methods have distinct wire strings. */
  lemma MethodWireRoundTrip(m: NotificationMethod)
    ensures MethodFromWire(MethodWire(m)) == Some(m)
  {
  }

  /** Notification settings as the pydantic model holds them: every field
      optional. */
  datatype NotificationSettings = NotificationSettings(
    notificationMethod: Option<NotificationMethod>,
    callbackUrl: Option<string>,
    email: Option<string>)

  /** A `datetime`, kept opaque: only whether a timestamp is present matters
      here. */
  datatype Timestamp = Timestamp(instant: int)

  // ---------------------------------------------------------------------
  // JSON-like documents
  // ---------------------------------------------------------------------

  /** The values a job document can hold. `Obj` is a dict, in insertion
      order. */
  datatype Value =
    | Null
    | Str(s: string)
    | Bool(b: bool)
    | Status(status: RequestStatus)
    | Method(notificationMethod: NotificationMethod)
    | Stamp(time: Timestamp)
    | Obj(fields: seq<Field>)

  /** One dict entry: a key and its value. */
  datatype Field = Field(key: string, val: Value)

  /** The keys of a dict, in order. */
  function Keys(fs: seq<Field>): (ks: seq<string>)
    ensures |ks| == |fs|
    ensures forall i | 0 <= i < |fs| :: ks[i] == fs[i].key
  {
    if fs == [] then [] else [fs[0].key] + Keys(fs[1..])
  }

  /** No key occurs twice, as in every Python dict. */
  predicate UniqueKeys(fs: seq<Field>) {
    forall i, j | 0 <= i < j < |fs| :: fs[i].key != fs[j].key
  }

  /** `d.get(k)`: the value stored under `k`, if any. */
  function Lookup(fs: seq<Field>, k: string): (r: Option<Value>)
    ensures r.Some? <==> k in Keys(fs)
  {
    if fs == [] then None
    else if fs[0].key == k then Some(fs[0].val)
    else Lookup(fs[1..], k)
  }

  /** No key, at any nesting level, maps to `None`; the value itself is not
      `None` either. */
  predicate NullFree(v: Value) {
    match v
    case Null => false
    case Obj(fs) => FieldsNullFree(fs)
    case _ => true
  }

  /** No key of the dict, at any nesting level, maps to `None`. */
  predicate FieldsNullFree(fs: seq<Field>) {
    forall i | 0 <= i < |fs| :: NullFree(fs[i].val)
  }

  /** `a` can be obtained from `b` by deleting elements, so the elements of
      `a` keep their relative order in `b`. */
  predicate IsSubsequence<T(==)>(a: seq<T>, b: seq<T>)
    decreases |b|
  {
    if b == [] then a == []
    else (a != [] && a[0] == b[0] && IsSubsequence(a[1..], b[1..])) || IsSubsequence(a, b[1..])
  }

  // ---------------------------------------------------------------------
  // remove_none_values_from_dict
  // ---------------------------------------------------------------------

  /** A value after pruning: dicts are pruned recursively, every other value
      is left as it is. */
  function PruneValue(v: Value): (r: Value)
    ensures v.Obj? <==> r.Obj?
    ensures !v.Obj? ==> r == v
    ensures v != Null ==> NullFree(r)
  {
    match v
    case Obj(fs) => Obj(RemoveNoneValues(fs))
    case _ => v
  }

  /** `remove_none_values_from_dict`: deletes every entry whose value is
      `None` and prunes the dicts that remain as values, at every level. A
      nested dict that pruning empties is kept as `{}`. */
  function RemoveNoneValues(fs: seq<Field>): (r: seq<Field>)
    ensures |r| <= |fs|
    ensures FieldsNullFree(r)
  {
    if fs == [] then []
    else if fs[0].val == Null then RemoveNoneValues(fs[1..])
    else [Field(fs[0].key, PruneValue(fs[0].val))] + RemoveNoneValues(fs[1..])
  }

  /** A key survives pruning exactly when some entry maps it to a value
      other than `None`. */
  lemma {:induction false} RemoveNoneKeys(fs: seq<Field>, k: string)
    ensures k in Keys(RemoveNoneValues(fs)) <==>
              exists i :: 0 <= i < |fs| && fs[i].key == k && fs[i].val != Null
  {
    if fs != [] {
      RemoveNoneKeys(fs[1..], k);
      var r := RemoveNoneValues(fs);
      if (exists i :: 0 <= i < |fs| && fs[i].key == k && fs[i].val != Null) {
        var i :| 0 <= i < |fs| && fs[i].key == k && fs[i].val != Null;
        if i > 0 {
          assert fs[1..][i - 1] == fs[i];
        }
      }
      if k in Keys(RemoveNoneValues(fs[1..])) {
        var i :| 0 <= i < |fs[1..]| && fs[1..][i].key == k && fs[1..][i].val != Null;
        assert fs[i + 1] == fs[1..][i];
      }
    }
  }

  /** Pruning works entry by entry: pruning a concatenation is the
      concatenation of the pruned parts, so surviving entries keep their
      relative order. */
  lemma {:induction false} RemoveNoneAppend(a: seq<Field>, b: seq<Field>)
    ensures RemoveNoneValues(a + b) == RemoveNoneValues(a) + RemoveNoneValues(b)
  {
    if a != [] {
      assert (a + b)[0] == a[0];
      assert (a + b)[1..] == a[1..] + b;
      RemoveNoneAppend(a[1..], b);
      if a[0].val != Null {
        var head := [Field(a[0].key, PruneValue(a[0].val))];
        calc {
          RemoveNoneValues(a + b);
          head + RemoveNoneValues(a[1..] + b);
          head + (RemoveNoneValues(a[1..]) + RemoveNoneValues(b));
          (head + RemoveNoneValues(a[1..])) + RemoveNoneValues(b);
        }
      }
    } else {
      assert a + b == b;
    }
  }

  /** The keys left by pruning appear in the input in the same relative
      order. */
  lemma {:induction false} RemoveNoneOrder(fs: seq<Field>)
    ensures IsSubsequence(Keys(RemoveNoneValues(fs)), Keys(fs))
  {
    if fs != [] {
      RemoveNoneOrder(fs[1..]);
      var ks := Keys(fs);
      var kr := Keys(RemoveNoneValues(fs));
      assert ks[1..] == Keys(fs[1..]);
      if fs[0].val != Null {
        assert kr != [] && kr[0] == ks[0];
        assert kr[1..] == Keys(RemoveNoneValues(fs[1..]));
        assert IsSubsequence(kr[1..], ks[1..]);
      } else {
        assert kr == Keys(RemoveNoneValues(fs[1..]));
        assert IsSubsequence(kr, ks[1..]);
      }
    }
  }

  /** The tail of a dict is a dict that does not hold the head's key. */
  lemma UniqueKeysTail(fs: seq<Field>)
    requires fs != [] && UniqueKeys(fs)
    ensures UniqueKeys(fs[1..])
    ensures forall i | 0 <= i < |fs[1..]| :: fs[1..][i].key != fs[0].key
  {
    forall i | 0 <= i < |fs[1..]|
      ensures fs[1..][i] == fs[i + 1]
    {
    }
  }

  /** Pruning never introduces a key, so a dict stays a dict. */
  lemma {:induction false} RemoveNoneUniqueKeys(fs: seq<Field>)
    requires UniqueKeys(fs)
    ensures UniqueKeys(RemoveNoneValues(fs))
  {
    if fs != [] {
      UniqueKeysTail(fs);
      RemoveNoneUniqueKeys(fs[1..]);
      if fs[0].val != Null {
        var r := RemoveNoneValues(fs);
        var rest := RemoveNoneValues(fs[1..]);
        assert fs[0].key !in Keys(rest) by {
          RemoveNoneKeys(fs[1..], fs[0].key);
        }
        assert r == [Field(fs[0].key, PruneValue(fs[0].val))] + rest;
        forall i, j | 0 <= i < j < |r|
          ensures r[i].key != r[j].key
        {
          assert r[j] == rest[j - 1];
          if i == 0 {
            assert Keys(rest)[j - 1] == rest[j - 1].key;
          } else {
            assert r[i] == rest[i - 1];
          }
        }
      }
    }
  }

  /** In a dict, the value pruning leaves under a key is the pruned original
      value; a key that mapped to `None`, or was absent, is absent. In
      particular every non-dict value survives unchanged. */
  lemma {:induction false} RemoveNoneLookup(fs: seq<Field>, k: string)
    requires UniqueKeys(fs)
    ensures Lookup(RemoveNoneValues(fs), k) ==
              match Lookup(fs, k)
              case None => None
              case Some(v) => if v == Null then None else Some(PruneValue(v))
  {
    if fs != [] {
      RemoveNoneLookup(fs[1..], k);
      if fs[0].key == k {
        assert Lookup(fs[1..], k) == None;
      }
    }
  }

  /** A null-free value is left unchanged by pruning. */
  lemma {:induction false} PruneNullFreeIdentity(v: Value)
    requires NullFree(v)
    ensures PruneValue(v) == v
    decreases v, 1
  {
    if v.Obj? {
      RemoveNoneNullFreeIdentity(v.fields);
    }
  }

  /** A null-free dict is left unchanged by pruning. */
  lemma {:induction false} RemoveNoneNullFreeIdentity(fs: seq<Field>)
    requires FieldsNullFree(fs)
    ensures RemoveNoneValues(fs) == fs
    decreases fs, 0
  {
    if fs != [] {
      assert NullFree(fs[0].val);
      PruneNullFreeIdentity(fs[0].val);
      RemoveNoneNullFreeIdentity(fs[1..]);
    }
  }

  /** `remove_none_values_from_dict` is idempotent. */
  lemma RemoveNoneIdempotent(fs: seq<Field>)
    ensures RemoveNoneValues(RemoveNoneValues(fs)) == RemoveNoneValues(fs)
  {
    RemoveNoneNullFreeIdentity(RemoveNoneValues(fs));
  }

  /** Pruning a single value is idempotent too. */
  lemma PruneIdempotent(v: Value)
    ensures PruneValue(PruneValue(v)) == PruneValue(v)
  {
    if v != Null {
      PruneNullFreeIdentity(PruneValue(v));
    }
  }

  /** A nested dict whose values are all `None` is emptied, not removed:
      it stays in its parent as `{}`. */
  lemma {:induction false} EmptiedDictStays(key: string, fs: seq<Field>)
    requires forall i | 0 <= i < |fs| :: fs[i].val == Null
    ensures RemoveNoneValues([Field(key, Obj(fs))]) == [Field(key, Obj([]))]
  {
    AllNoneRemoved(fs);
  }

  /** A dict whose values are all `None` prunes to the empty dict. */
  lemma {:induction false} AllNoneRemoved(fs: seq<Field>)
    requires forall i | 0 <= i < |fs| :: fs[i].val == Null
    ensures RemoveNoneValues(fs) == []
  {
    if fs != [] {
      AllNoneRemoved(fs[1..]);
    }
  }

  // ---------------------------------------------------------------------
  // del d[key]
  // ---------------------------------------------------------------------

  /** The error `del` raises. */
  datatype DictError = KeyError(key: string)

  /** The entries whose key is not `k`, in order. */
  function Without(fs: seq<Field>, k: string): (r: seq<Field>)
    ensures k !in Keys(r)
    ensures IsSubsequence(r, fs)
    ensures k !in Keys(fs) ==> r == fs
    ensures |r| <= |fs|
  {
    if fs == [] then []
    else if fs[0].key == k then Without(fs[1..], k)
    else
      var rest := Without(fs[1..], k);
      var r := [fs[0]] + rest;
      assert r[1..] == rest;
      assert fs == [fs[0]] + fs[1..];
      r
  }

  /** Removing `k` keeps the lookup of every other key. */
  lemma {:induction false} WithoutLookup(fs: seq<Field>, k: string, other: string)
    requires other != k
    ensures Lookup(Without(fs, k), other) == Lookup(fs, other)
  {
    if fs != [] {
      WithoutLookup(fs[1..], k, other);
      if fs[0].key != k {
        assert ([fs[0]] + Without(fs[1..], k))[1..] == Without(fs[1..], k);
      }
    }
  }

  /** Removing a key from a dict leaves a dict. */
  lemma {:induction false} WithoutUniqueKeys(fs: seq<Field>, k: string)
    requires UniqueKeys(fs)
    ensures UniqueKeys(Without(fs, k))
  {
    if fs != [] {
      UniqueKeysTail(fs);
      WithoutUniqueKeys(fs[1..], k);
      if fs[0].key != k {
        var rest := Without(fs[1..], k);
        assert fs[0].key !in Keys(fs[1..]);
        WithoutKeysIncluded(fs[1..], k, fs[0].key);
        var r := [fs[0]] + rest;
        forall a, b | 0 <= a < b < |r|
          ensures r[a].key != r[b].key
        {
          assert r[b] == rest[b - 1];
          if a == 0 {
            assert Keys(rest)[b - 1] == rest[b - 1].key;
          } else {
            assert r[a] == rest[a - 1];
          }
        }
      }
    }
  }

  /** Removing a key present in a dict drops exactly one entry. */
  lemma {:induction false} WithoutLength(fs: seq<Field>, k: string)
    requires UniqueKeys(fs) && k in Keys(fs)
    ensures |Without(fs, k)| == |fs| - 1
  {
    UniqueKeysTail(fs);
    if fs[0].key == k {
      assert k !in Keys(fs[1..]);
    } else {
      var m :| 0 <= m < |fs| && Keys(fs)[m] == k;
      assert m > 0 && Keys(fs[1..])[m - 1] == k;
      WithoutLength(fs[1..], k);
    }
  }

  /** Removing a key adds no `None`. */
  lemma {:induction false} WithoutNullFree(fs: seq<Field>, k: string)
    requires FieldsNullFree(fs)
    ensures FieldsNullFree(Without(fs, k))
  {
    if fs != [] {
      assert FieldsNullFree(fs[1..]) by {
        forall m | 0 <= m < |fs[1..]|
          ensures NullFree(fs[1..][m].val)
        {
          assert fs[1..][m] == fs[m + 1];
        }
      }
      WithoutNullFree(fs[1..], k);
      if fs[0].key != k {
        var rest := Without(fs[1..], k);
        var r := [fs[0]] + rest;
        forall m | 0 <= m < |r|
          ensures NullFree(r[m].val)
        {
          if m > 0 {
            assert r[m] == rest[m - 1];
          }
        }
      }
    }
  }

  /** Removing a key adds no key. */
  lemma {:induction false} WithoutKeysIncluded(fs: seq<Field>, k: string, other: string)
    requires other !in Keys(fs)
    ensures other !in Keys(Without(fs, k))
  {
    if other != k {
      WithoutLookup(fs, k, other);
    }
  }

  /** `del d[k]`: removes the entry for `k`, or raises `KeyError` when there
      is none. */
  function Del(fs: seq<Field>, k: string): (r: Result<seq<Field>, DictError>)
    ensures r.Err? <==> k !in Keys(fs)
    ensures r.Err? ==> r.error == KeyError(k)
    ensures r.Ok? ==> k !in Keys(r.value) && IsSubsequence(r.value, fs)
    ensures r.Ok? ==> forall other | other != k :: Lookup(r.value, other) == Lookup(fs, other)
    ensures r.Ok? && UniqueKeys(fs) ==> UniqueKeys(r.value) && |r.value| == |fs| - 1
    ensures r.Ok? && FieldsNullFree(fs) ==> FieldsNullFree(r.value)
  {
    if k in Keys(fs) then
      WithoutFacts(fs, k);
      Ok(Without(fs, k))
    else Err(KeyError(k))
  }

  /** The facts about removing a present key that `Del` reports. */
  lemma WithoutFacts(fs: seq<Field>, k: string)
    requires k in Keys(fs)
    ensures forall other | other != k :: Lookup(Without(fs, k), other) == Lookup(fs, other)
    ensures UniqueKeys(fs) ==> UniqueKeys(Without(fs, k)) && |Without(fs, k)| == |fs| - 1
    ensures FieldsNullFree(fs) ==> FieldsNullFree(Without(fs, k))
  {
    forall other | other != k
      ensures Lookup(Without(fs, k), other) == Lookup(fs, other)
    {
      WithoutLookup(fs, k, other);
    }
    if UniqueKeys(fs) {
      WithoutUniqueKeys(fs, k);
      WithoutLength(fs, k);
    }
    if FieldsNullFree(fs) {
      WithoutNullFree(fs, k);
    }
  }

  // ---------------------------------------------------------------------
  // JobRequest
  // ---------------------------------------------------------------------

  /** A job request record, with the dataclass fields in declaration order;
      `id` is the store-assigned `_id`. */
  datatype JobRequest = JobRequest(
    configurationPath: string,
    status: RequestStatus,
    id: Option<string>,
    outputDir: Option<string>,
    notificationSettings: Option<NotificationSettings>,
    createdTimestamp: Option<Timestamp>,
    startedTimestamp: Option<Timestamp>,
    finishedTimestamp: Option<Timestamp>,
    archiveUrl: Option<string>,
    notified: bool)

  /** `JobRequest(configuration_path, status)`: every other field takes its
      dataclass default. */
  function NewJobRequest(configurationPath: string, status: RequestStatus): JobRequest {
    JobRequest(configurationPath, status, None, None, None, None, None, None, None, false)
  }

  /** `get_id`: the assigned id, or `None` before the store assigned one. */
  function GetId(j: JobRequest): (r: Option<string>)
    ensures ToDict(j, false).Ok?
    ensures r.Some? <==> "_id" in Keys(ToDict(j, false).value)
    ensures r.Some? ==> Lookup(ToDict(j, false).value, "_id") == Some(Str(r.value))
  {
    ToDictId(j);
    j.id
  }

  /** `set_id`: assigns the id. */
  function SetId(j: JobRequest, requestId: string): (r: JobRequest)
    ensures GetId(r) == Some(requestId)
    ensures r.(id := j.id) == j
  {
    j.(id := Some(requestId))
  }

  /** The ten keys of the document, in the order `to_dict` inserts them. */
  const FieldNames: seq<string> := [
    "configuration_path", "notification_settings", "status", "_id", "output_dir",
    "created_timestamp", "started_timestamp", "finished_timestamp", "archive_url", "notified"]

  /** Which of the ten keys carry a value for this record: the optional
      fields when they are set, and the other three always. */
  predicate FieldPresent(j: JobRequest, name: string) {
    if name == "notification_settings" then j.notificationSettings.Some?
    else if name == "_id" then j.id.Some?
    else if name == "output_dir" then j.outputDir.Some?
    else if name == "created_timestamp" then j.createdTimestamp.Some?
    else if name == "started_timestamp" then j.startedTimestamp.Some?
    else if name == "finished_timestamp" then j.finishedTimestamp.Some?
    else if name == "archive_url" then j.archiveUrl.Some?
    else name == "configuration_path" || name == "status" || name == "notified"
  }

  /** An optional string as a document value. */
  function OptStr(o: Option<string>): Value {
    match o
    case Some(s) => Str(s)
    case None => Null
  }

  /** An optional timestamp as a document value. */
  function OptStamp(o: Option<Timestamp>): Value {
    match o
    case Some(t) => Stamp(t)
    case None => Null
  }

  /** A one-entry dict when the value is present, else the empty dict. */
  function Entry(key: string, o: Option<Value>): (r: seq<Field>)
    ensures Keys(r) == Present(key, o.Some?)
    ensures (o.Some? ==> NullFree(o.value)) ==> FieldsNullFree(r)
  {
    match o
    case Some(v) => [Field(key, v)]
    case None => []
  }

  /** The key list of a dict that holds `key` exactly when `present`. */
  function Present(key: string, present: bool): seq<string> {
    if present then [key] else []
  }

  /** Joining two dicts with no key in common gives a dict whose keys are
      theirs in order, and adds no `None`. */
  lemma JoinDicts(a: seq<Field>, b: seq<Field>)
    requires UniqueKeys(a) && UniqueKeys(b)
    requires forall i, j | 0 <= i < |a| && 0 <= j < |b| :: a[i].key != b[j].key
    ensures Keys(a + b) == Keys(a) + Keys(b)
    ensures UniqueKeys(a + b)
    ensures FieldsNullFree(a) && FieldsNullFree(b) ==> FieldsNullFree(a + b)
  {
    var ab := a + b;
    forall i, j | 0 <= i < j < |ab|
      ensures ab[i].key != ab[j].key
    {
      if j < |a| {
      } else if i >= |a| {
        assert ab[i] == b[i - |a|] && ab[j] == b[j - |a|];
      } else {
        assert ab[j] == b[j - |a|];
      }
    }
  }

  /** `notification_settings.dict(exclude_none=True)`: the settings fields
      that are set, in declaration order. Enum members stay members. */
  function SettingsDict(ns: NotificationSettings): (r: seq<Field>)
    ensures FieldsNullFree(r)
    ensures UniqueKeys(r)
    ensures Keys(r) == Present("method", ns.notificationMethod.Some?)
                     + Present("callback_url", ns.callbackUrl.Some?)
                     + Present("email", ns.email.Some?)
  {
    var m := Entry("method", match ns.notificationMethod case Some(m) => Some(Method(m)) case None => None);
    var u := Entry("callback_url", match ns.callbackUrl case Some(u) => Some(Str(u)) case None => None);
    var e := Entry("email", match ns.email case Some(e) => Some(Str(e)) case None => None);
    JoinDicts(m, u);
    JoinDicts(m + u, e);
    m + u + e
  }

  /** The settings as the value of the `notification_settings` key: the
      pruned settings dict, or `None` when the record has no settings. */
  function SettingsValue(o: Option<NotificationSettings>): Value {
    match o
    case Some(ns) => Obj(SettingsDict(ns))
    case None => Null
  }

  /** The ten-key dict literal `to_dict` starts from, before pruning. */
  function RawDict(j: JobRequest): seq<Field> {
    [ Field("configuration_path", Str(j.configurationPath)),
      Field("notification_settings", SettingsValue(j.notificationSettings)),
      Field("status", Status(j.status)),
      Field("_id", OptStr(j.id)),
      Field("output_dir", OptStr(j.outputDir)),
      Field("created_timestamp", OptStamp(j.createdTimestamp)),
      Field("started_timestamp", OptStamp(j.startedTimestamp)),
      Field("finished_timestamp", OptStamp(j.finishedTimestamp)),
      Field("archive_url", OptStr(j.archiveUrl)),
      Field("notified", Bool(j.notified)) ]
  }

  /** `to_dict(without_id)`: the record's document with every `None`
      removed; with `without_id` the `_id` entry is deleted afterwards, which
      raises `KeyError` when pruning already removed it. */
  function ToDict(j: JobRequest, withoutId: bool): (r: Result<seq<Field>, DictError>)
    ensures r.Ok? ==> FieldsNullFree(r.value)
    ensures r.Err? ==> r.error == KeyError("_id")
  {
    var d := RemoveNoneValues(RawDict(j));
    if withoutId then Del(d, "_id") else Ok(d)
  }

  /** The ten key names are pairwise distinct. */
  lemma FieldNamesDistinct()
    ensures forall a, b | 0 <= a < b < |FieldNames| :: FieldNames[a] != FieldNames[b]
  {
    var lengths := [18, 21, 6, 3, 10, 17, 17, 18, 11, 8];
    forall a | 0 <= a < 10
      ensures |FieldNames[a]| == lengths[a]
    {
    }
    assert FieldNames[0][0] != FieldNames[7][0];
    assert FieldNames[5][0] != FieldNames[6][0];
  }

  /** The raw dict has the ten keys in order, each exactly once. */
  lemma RawDictKeys(j: JobRequest)
    ensures Keys(RawDict(j)) == FieldNames
    ensures UniqueKeys(RawDict(j))
  {
    var raw := RawDict(j);
    forall i | 0 <= i < 10
      ensures raw[i].key == FieldNames[i]
    {
    }
    FieldNamesDistinct();
  }

  /** An entry of the raw dict is not `None` exactly when its field is
      present. */
  lemma RawDictPresence(j: JobRequest)
    ensures forall i | 0 <= i < 10 :: RawDict(j)[i].val != Null <==> FieldPresent(j, FieldNames[i])
  {
    forall i | 0 <= i < 10
      ensures RawDict(j)[i].val != Null <==> FieldPresent(j, FieldNames[i])
    {
      RawDictPresenceAt(j, i);
    }
  }

  /** `RawDictPresence` for one entry. */
  lemma RawDictPresenceAt(j: JobRequest, i: nat)
    requires i < 10
    ensures RawDict(j)[i].val != Null <==> FieldPresent(j, FieldNames[i])
  {
    if i < 5 {
      RawDictPresenceLow(j, i);
    } else {
      RawDictPresenceHigh(j, i);
    }
  }

  /** `RawDictPresence` for the first five entries. */
  lemma RawDictPresenceLow(j: JobRequest, i: nat)
    requires i < 5
    ensures RawDict(j)[i].val != Null <==> FieldPresent(j, FieldNames[i])
  {
    assert FieldPresent(j, "configuration_path");
    assert FieldPresent(j, "notification_settings") <==> j.notificationSettings.Some?;
    assert FieldPresent(j, "status");
    assert FieldPresent(j, "_id") <==> j.id.Some?;
    assert FieldPresent(j, "output_dir") <==> j.outputDir.Some?;
  }

  /** `RawDictPresence` for the last five entries. */
  lemma RawDictPresenceHigh(j: JobRequest, i: nat)
    requires 5 <= i < 10
    ensures RawDict(j)[i].val != Null <==> FieldPresent(j, FieldNames[i])
  {
    assert FieldPresent(j, "created_timestamp") <==> j.createdTimestamp.Some?;
    assert FieldPresent(j, "started_timestamp") <==> j.startedTimestamp.Some?;
    assert FieldPresent(j, "finished_timestamp") <==> j.finishedTimestamp.Some?;
    assert FieldPresent(j, "archive_url") <==> j.archiveUrl.Some?;
    assert FieldPresent(j, "notified");
  }

  /** The keys of `to_dict()` are exactly the listed fields that carry a
      value. */
  lemma ToDictKeys(j: JobRequest, k: string)
    ensures ToDict(j, false).Ok?
    ensures k in Keys(ToDict(j, false).value) <==> k in FieldNames && FieldPresent(j, k)
  {
    var raw := RawDict(j);
    RawDictKeys(j);
    RawDictPresence(j);
    RemoveNoneKeys(raw, k);
    if exists i :: 0 <= i < |raw| && raw[i].key == k && raw[i].val != Null {
      var i :| 0 <= i < |raw| && raw[i].key == k && raw[i].val != Null;
      assert Keys(raw)[i] == k;
    }
    if k in FieldNames && FieldPresent(j, k) {
      var i :| 0 <= i < 10 && FieldNames[i] == k;
      assert Keys(raw)[i] == k;
      assert raw[i].key == k && raw[i].val != Null;
    }
  }

  /** `to_dict()` is a dict: no key twice, and its keys come in the listed
      order. */
  lemma ToDictOrder(j: JobRequest)
    ensures ToDict(j, false).Ok?
    ensures UniqueKeys(ToDict(j, false).value)
    ensures IsSubsequence(Keys(ToDict(j, false).value), FieldNames)
  {
    RawDictKeys(j);
    RemoveNoneUniqueKeys(RawDict(j));
    RemoveNoneOrder(RawDict(j));
  }

  /** `to_dict(without_id=True)` raises `KeyError` exactly when the record
      has no id: pruning has then already removed `_id`. */
  lemma ToDictFailsWithoutId(j: JobRequest, withoutId: bool)
    ensures ToDict(j, withoutId).Err? <==> withoutId && j.id.None?
  {
    ToDictKeys(j, "_id");
    assert FieldNames[3] == "_id";
  }

  /** `notified` is always a key of `to_dict`, whatever the record. */
  lemma ToDictHasNotified(j: JobRequest, withoutId: bool)
    ensures ToDict(j, withoutId).Ok? ==> "notified" in Keys(ToDict(j, withoutId).value)
  {
    ToDictKeys(j, "notified");
    assert FieldNames[9] == "notified";
    var d := ToDict(j, false).value;
    assert Lookup(d, "notified").Some?;
  }

  /** Each of the ten keys maps, in `to_dict()`, to its pruned raw value,
      or is absent when that value is `None`. */
  lemma ToDictLookup(j: JobRequest, i: nat)
    requires i < 10
    ensures ToDict(j, false).Ok?
    ensures Lookup(ToDict(j, false).value, FieldNames[i]) ==
              if RawDict(j)[i].val == Null then None else Some(PruneValue(RawDict(j)[i].val))
  {
    var raw := RawDict(j);
    RawDictKeys(j);
    LookupAt(raw, i, FieldNames[i]);
    RemoveNoneLookup(raw, FieldNames[i]);
  }

  /** The mandatory fields appear in `to_dict()` with the record's values. */
  lemma ToDictMandatory(j: JobRequest)
    ensures ToDict(j, false).Ok?
    ensures Lookup(ToDict(j, false).value, "configuration_path") == Some(Str(j.configurationPath))
    ensures Lookup(ToDict(j, false).value, "status") == Some(Status(j.status))
    ensures Lookup(ToDict(j, false).value, "notified") == Some(Bool(j.notified))
  {
    ToDictPath(j);
    ToDictStatus(j);
    ToDictNotified(j);
  }

  /** `configuration_path` keeps its value in `to_dict()`. */
  lemma ToDictPath(j: JobRequest)
    ensures Lookup(ToDict(j, false).value, "configuration_path") == Some(Str(j.configurationPath))
  {
    assert RawDict(j)[0].val == Str(j.configurationPath);
    ToDictPlain(j, 0, Str(j.configurationPath));
  }

  /** `status` keeps its value in `to_dict()`. */
  lemma ToDictStatus(j: JobRequest)
    ensures Lookup(ToDict(j, false).value, "status") == Some(Status(j.status))
  {
    assert RawDict(j)[2].val == Status(j.status);
    ToDictPlain(j, 2, Status(j.status));
  }

  /** `notified` keeps its value in `to_dict()`. */
  lemma ToDictNotified(j: JobRequest)
    ensures Lookup(ToDict(j, false).value, "notified") == Some(Bool(j.notified))
  {
    assert RawDict(j)[9].val == Bool(j.notified);
    ToDictPlain(j, 9, Bool(j.notified));
  }

  /** A raw entry holding a plain, non-`None` value keeps that value in
      `to_dict()`. */
  lemma ToDictPlain(j: JobRequest, i: nat, v: Value)
    requires i < 10 && RawDict(j)[i].val == v && v != Null && !v.Obj?
    ensures ToDict(j, false).Ok?
    ensures Lookup(ToDict(j, false).value, FieldNames[i]) == Some(v)
  {
    ToDictLookup(j, i);
  }

  /** The settings appear in `to_dict()` as their settings dict, which is
      already free of `None`, and are absent when the record has none. */
  lemma ToDictSettings(j: JobRequest)
    ensures ToDict(j, false).Ok?
    ensures Lookup(ToDict(j, false).value, "notification_settings") ==
              match j.notificationSettings
              case Some(ns) => Some(Obj(SettingsDict(ns)))
              case None => None
  {
    ToDictLookup(j, 1);
    if j.notificationSettings.Some? {
      RemoveNoneNullFreeIdentity(SettingsDict(j.notificationSettings.value));
    }
  }

  /** The id appears in `to_dict()` when assigned, and is absent otherwise. */
  lemma ToDictId(j: JobRequest)
    ensures ToDict(j, false).Ok?
    ensures Lookup(ToDict(j, false).value, "_id") ==
              match j.id
              case Some(x) => Some(Str(x))
              case None => None
  {
    ToDictLookup(j, 3);
  }

  /** `to_dict(without_id=True)` is `to_dict()` with the `_id` entry
      deleted: every other key keeps its value and its relative position. */
  lemma ToDictWithoutId(j: JobRequest)
    requires j.id.Some?
    ensures ToDict(j, true).Ok?
    ensures "_id" !in Keys(ToDict(j, true).value)
    ensures |ToDict(j, true).value| == |ToDict(j, false).value| - 1
    ensures IsSubsequence(ToDict(j, true).value, ToDict(j, false).value)
    ensures forall k | k != "_id" :: Lookup(ToDict(j, true).value, k) == Lookup(ToDict(j, false).value, k)
  {
    ToDictFailsWithoutId(j, true);
    ToDictOrder(j);
  }

  /** In a dict, looking a key up finds the value of its one entry. */
  lemma {:induction false} LookupAt(fs: seq<Field>, i: nat, k: string)
    requires UniqueKeys(fs) && i < |fs| && fs[i].key == k
    ensures Lookup(fs, k) == Some(fs[i].val)
  {
    if i > 0 {
      assert fs[1..][i - 1] == fs[i];
      LookupAt(fs[1..], i - 1, k);
    }
  }

  /** The dict literal of a fresh record prunes to its three mandatory
      entries. */
  lemma FreshRecordPruned(path: string, status: RequestStatus)
    ensures RemoveNoneValues(RawDict(NewJobRequest(path, status))) ==
              [Field("configuration_path", Str(path)), Field("status", Status(status)), Field("notified", Bool(false))]
  {
    var cp := Field("configuration_path", Str(path));
    var st := Field("status", Status(status));
    var nt := Field("notified", Bool(false));
    var head := [cp, Field("notification_settings", Null), st];
    var nulls := FreshNulls();
    FreshRawDict(path, status);
    RemoveNoneAppend(head + nulls, [nt]);
    RemoveNoneAppend(head, nulls);
    AllNoneRemoved(nulls);
    assert RemoveNoneValues(head) == [cp, st] by {
      assert head[1..][1..] == [st];
      assert RemoveNoneValues([st]) == [st];
      assert head[1..] == [Field("notification_settings", Null), st];
    }
    assert RemoveNoneValues([nt]) == [nt];
  }

  /** The six optional entries of a fresh record, all `None`. */
  function FreshNulls(): (r: seq<Field>)
    ensures forall i | 0 <= i < |r| :: r[i].val == Null
  {
    [Field("_id", Null), Field("output_dir", Null), Field("created_timestamp", Null),
     Field("started_timestamp", Null), Field("finished_timestamp", Null), Field("archive_url", Null)]
  }

  /** The literal of a fresh record: two set entries around `None`
      settings, six `None` entries, and `notified = False`. */
  lemma FreshRawDict(path: string, status: RequestStatus)
    ensures RawDict(NewJobRequest(path, status)) ==
              [Field("configuration_path", Str(path)), Field("notification_settings", Null),
               Field("status", Status(status))] + FreshNulls() + [Field("notified", Bool(false))]
  {
  }

  /** A record fresh from the constructor serialises to its three mandatory
      keys, and `to_dict(without_id=True)` raises `KeyError` on it. */
  lemma NewJobRequestDict(path: string, status: RequestStatus)
    ensures ToDict(NewJobRequest(path, status), false) ==
              Ok([Field("configuration_path", Str(path)), Field("status", Status(status)), Field("notified", Bool(false))])
    ensures ToDict(NewJobRequest(path, status), true) == Err(KeyError("_id"))
  {
    FreshRecordPruned(path, status);
    ToDictFailsWithoutId(NewJobRequest(path, status), true);
  }

  /** After `set_id`, `to_dict()` carries the id and
      `to_dict(without_id=True)` no longer fails. */
  lemma SetIdThenToDict(j: JobRequest, requestId: string)
    ensures ToDict(SetId(j, requestId), true).Ok?
    ensures Lookup(ToDict(SetId(j, requestId), false).value, "_id") == Some(Str(requestId))
  {
    ToDictFailsWithoutId(SetId(j, requestId), true);
    ToDictId(SetId(j, requestId));
  }
}
