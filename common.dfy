/** Shared vocabulary: identifiers, optional values, HTTP error outcomes and
    the small sequence toolkit the collection queries are built from. */
module Common {

  datatype Option<T> = None | Some(value: T)

  /** Mongo ObjectIds are opaque; only equality and freshness matter. */
  type UserId = nat
  type ChatId = nat
  type MessageId = nat
  /** socket.io connection ids are strings. */
  type SocketId = string

  /** What a verified JSON Web Token carries. */
  datatype Claims = Claims(userId: UserId, email: string)

  /** The token verifier (`jwt.verify` with the server secret) as a partial
      function: a token outside the domain is one the verifier rejects. */
  type Verifier = map<string, Claims>

  /** The failure responses of the HTTP controllers. */
  datatype HttpError =
    | Unauthorized  // 401
    | NotFound      // 404
    | BadRequest    // 400
    | ServerError   // 500: an exception caught by the controller's catch block

  datatype Result<T> = Ok(value: T) | Err(error: HttpError)

  function Abs(x: int): nat { if x < 0 then -x else x }
  function Min(x: int, y: int): int { if x <= y then x else y }
  function Max(x: int, y: int): int { if x <= y then y else x }

  predicate NoDups<T(==)>(s: seq<T>) {
    forall i, j :: 0 <= i < j < |s| ==> s[i] != s[j]
  }

  /** The elements of `s` that satisfy `keep`, in their original order. */
  function Filter<T(!new)>(s: seq<T>, keep: T -> bool): (r: seq<T>)
    ensures |r| <= |s|
    ensures forall x :: x in r <==> x in s && keep(x)
  {
    if s == [] then []
    else (if keep(s[0]) then [s[0]] else []) + Filter(s[1..], keep)
  }

  /** `s` read back to front. */
  function Reverse<T>(s: seq<T>): (r: seq<T>)
    ensures |r| == |s|
    ensures forall i :: 0 <= i < |s| ==> r[i] == s[|s| - 1 - i]
    ensures multiset(r) == multiset(s)
  {
    if s == [] then []
    else
      assert s == [s[0]] + s[1..];
      Reverse(s[1..]) + [s[0]]
  }

  /** Filtering keeps relative order: a relation that holds between every
      earlier and later element of `s` holds likewise in `Filter(s, keep)`. */
  lemma {:induction false} FilterKeepsOrder<T(!new)>(s: seq<T>, keep: T -> bool, before: (T, T) -> bool)
    requires forall i, j :: 0 <= i < j < |s| ==> before(s[i], s[j])
    ensures forall i, j :: 0 <= i < j < |Filter(s, keep)| ==>
              before(Filter(s, keep)[i], Filter(s, keep)[j])
  {
    if s != [] {
      var tail := Filter(s[1..], keep);
      FilterKeepsOrder(s[1..], keep, before);
      if keep(s[0]) {
        var r := Filter(s, keep);
        assert r == [s[0]] + tail;
        forall j | 1 <= j < |r| ensures before(r[0], r[j]) {
          assert r[j] in s[1..];
          var k :| 0 <= k < |s[1..]| && s[1..][k] == r[j];
          assert s[1 + k] == r[j];
        }
        forall i, j | 1 <= i < j < |r| ensures before(r[i], r[j]) {
          assert 0 <= i - 1 < j - 1 < |tail|;
          assert before(tail[i - 1], tail[j - 1]);
          assert r[i] == tail[i - 1] && r[j] == tail[j - 1];
        }
      } else {
        assert Filter(s, keep) == tail;
      }
    }
  }
}
