/** Optional values: Python's `None` versus a present value. */
module Wrappers {

  datatype Option<+T> = None | Some(value: T) {

    /** The value when present, otherwise `default` (Python's `x or default` on Optional). */
    function GetOr(default: T): T {
      match this
      case Some(v) => v
      case None => default
    }
  }

  /** The first present value of a list of attempts: a loop that returns at its first success. */
  function FirstSome<T>(hits: seq<Option<T>>): (r: Option<T>)
    decreases |hits|
  {
    if hits == [] then None else if hits[0].Some? then hits[0] else FirstSome(hits[1..])
  }

  /** A result is the value of some attempt, and every earlier attempt failed. */
  lemma {:induction false} FirstSomeIsFirst<T>(hits: seq<Option<T>>)
    requires FirstSome(hits).Some?
    ensures exists k :: 0 <= k < |hits| && hits[k] == FirstSome(hits) && (forall j :: 0 <= j < k ==> hits[j].None?)
    decreases |hits|
  {
    if hits[0].None? {
      FirstSomeIsFirst(hits[1..]);
      var k :| 0 <= k < |hits[1..]| && hits[1..][k] == FirstSome(hits[1..]) && (forall j :: 0 <= j < k ==> hits[1..][j].None?);
      assert hits[k + 1] == FirstSome(hits);
      forall j | 0 <= j < k + 1 ensures hits[j].None? {
        if j > 0 { assert hits[j] == hits[1..][j - 1]; }
      }
    }
  }

  /** No result exactly when every attempt failed. */
  lemma {:induction false} FirstSomeNone<T>(hits: seq<Option<T>>)
    ensures FirstSome(hits).None? <==> forall k :: 0 <= k < |hits| ==> hits[k].None?
    decreases |hits|
  {
    if hits != [] {
      FirstSomeNone(hits[1..]);
      if FirstSome(hits).None? {
        forall k | 0 <= k < |hits| ensures hits[k].None? {
          if k > 0 { assert hits[k] == hits[1..][k - 1]; }
        }
      } else if hits[0].None? {
        var k :| 0 <= k < |hits[1..]| && hits[1..][k].Some?;
        assert hits[k + 1].Some?;
      }
    }
  }
}
