/** Values shared by every part of the model: identifiers, optional values,
    JavaScript truthiness, HTTP replies and audit-log entries. */
module Common {

  /** A document `_id` (a MongoDB ObjectId); the store draws them from a counter. */
  type Id = nat
  /** The `_id` of a User document. */
  type UserId = nat
  /** A `Date`, as milliseconds since the epoch. */
  type Time = int

  datatype Option<+T> = None | Some(value: T) {
    function GetOr(default: T): T {
      if Some? then value else default
    }
  }

  /** JavaScript truthiness of an optional string: `undefined`, `null` and `""` are falsy. */
  predicate TruthyString(s: Option<string>) {
    s.Some? && s.value != ""
  }

  /** JavaScript truthiness of an optional number: `undefined`, `null` and `0` are falsy. */
  predicate TruthyNumber(n: Option<int>) {
    n.Some? && n.value != 0
  }

  /** The HTTP status codes the handlers answer with. */
  const OK: nat := 200
  const CREATED: nat := 201
  const BAD_REQUEST: nat := 400
  const UNAUTHORIZED: nat := 401
  const FORBIDDEN: nat := 403
  const NOT_FOUND: nat := 404
  const SERVER_ERROR: nat := 500

  /** The JSON reply of a handler: a success with its body, or an error with its `message`. */
  datatype Reply<+T> = Ok(code: nat, value: T) | Err(code: nat, message: string)

  /** One record written by `logActivity` (libs/logger.js is not part of this model;
      it is taken to append exactly one record and never to fail). */
  datatype AuditEntry = AuditEntry(
    action: string,
    description: string,
    entity: string,
    entityId: Id,
    userId: UserId,
    ipAddress: string,
    timestamp: Time)
}

/** Generic operations on a collection kept in its natural (insertion) order. */
module Seqs {
  import opened Common

  /** The index of the first element satisfying `p`, as `findOne` returns the first match. */
  function FirstIndex<T>(s: seq<T>, p: T -> bool): (r: Option<nat>)
    ensures r.Some? ==> r.value < |s| && p(s[r.value])
    ensures r.Some? ==> forall j :: 0 <= j < r.value ==> !p(s[j])
    ensures r.None? <==> forall j :: 0 <= j < |s| ==> !p(s[j])
  {
    if |s| == 0 then None
    else if p(s[0]) then Some(0)
    else match FirstIndex(s[1..], p)
      case None => None
      case Some(i) => Some(i + 1)
  }

  /** The elements satisfying `p`, in their original order (a `find` with a filter). */
  function Filter<T(!new)>(s: seq<T>, p: T -> bool): (r: seq<T>)
    ensures |r| <= |s|
    ensures forall j :: 0 <= j < |r| ==> p(r[j])
    ensures forall x :: multiset(r)[x] == if p(x) then multiset(s)[x] else 0
  {
    if |s| == 0 then []
    else
      var rest := Filter(s[1..], p);
      assert s == [s[0]] + s[1..];
      if p(s[0]) then [s[0]] + rest else rest
  }

  /** The collection without its `i`-th document (a hard delete). */
  function RemoveAt<T>(s: seq<T>, i: nat): (r: seq<T>)
    requires i < |s|
    ensures |r| == |s| - 1
    ensures forall j :: 0 <= j < i ==> r[j] == s[j]
    ensures forall j :: i <= j < |r| ==> r[j] == s[j + 1]
    ensures multiset(r) + multiset{s[i]} == multiset(s)
  {
    assert s == s[..i] + [s[i]] + s[i + 1..];
    s[..i] + s[i + 1..]
  }

  /** `created` never increases along `s`: the order of `.sort({ createdAt: -1 })`. */
  predicate NewestFirst<T>(s: seq<T>, created: T -> int) {
    forall i, j :: 0 <= i < j < |s| ==> created(s[i]) >= created(s[j])
  }

  function InsertNewest<T>(x: T, s: seq<T>, created: T -> int): (r: seq<T>)
    requires NewestFirst(s, created)
    ensures NewestFirst(r, created)
    ensures multiset(r) == multiset(s) + multiset{x}
  {
    if |s| == 0 || created(x) >= created(s[0]) then
      [x] + s
    else
      var rest := InsertNewest(x, s[1..], created);
      assert s == [s[0]] + s[1..];
      forall j | 0 <= j < |rest|
        ensures created(s[0]) >= created(rest[j])
      {
        assert rest[j] in multiset(rest);
        if rest[j] != x {
          assert rest[j] in multiset(s[1..]);
          var k :| 1 <= k < |s| && s[k] == rest[j];
        }
      }
      [s[0]] + rest
  }

  /** The collection sorted newest first (ties in any order, as MongoDB leaves them). */
  function SortNewestFirst<T>(s: seq<T>, created: T -> int): (r: seq<T>)
    ensures NewestFirst(r, created)
    ensures multiset(r) == multiset(s)
    ensures |r| == |s|
  {
    if |s| == 0 then []
    else
      assert s == [s[0]] + s[1..];
      InsertNewest(s[0], SortNewestFirst(s[1..], created), created)
  }

  /** `find(filter).sort({ createdAt: -1 })`: exactly the elements that pass the
      filter, each as often as it is stored, newest first. */
  function SelectNewestFirst<T(!new)>(s: seq<T>, p: T -> bool, created: T -> int): (r: seq<T>)
    ensures forall j :: 0 <= j < |r| ==> p(r[j]) && r[j] in s
    ensures forall i :: 0 <= i < |s| && p(s[i]) ==> s[i] in r
    ensures forall x :: multiset(r)[x] == if p(x) then multiset(s)[x] else 0
    ensures NewestFirst(r, created)
  {
    var selected := Filter(s, p);
    var sorted := SortNewestFirst(selected, created);
    forall j | 0 <= j < |sorted| ensures p(sorted[j]) && sorted[j] in s {
      assert sorted[j] in multiset(sorted);
    }
    forall i | 0 <= i < |s| && p(s[i]) ensures s[i] in sorted {
      assert s[i] in multiset(s);
    }
    sorted
  }
}
