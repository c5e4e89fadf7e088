/**
 What every component of the service shares: optional values, the reply a caller sees
 for one Redis command or one SQL statement, and totals taken over a list of processes.
 */
module Environment {
  datatype Option<+T> = None | Some(value: T)

  datatype Result<+T> = Ok(value: T) | Error(message: string)

  /** The reply to one command. A fault carries the SQLSTATE the driver reports, and says
      whether the server had already carried the command out when the reply was lost. */
  datatype Reply = Done | Fault(applied: bool, code: string)

  /** A script of replies still to come; an exhausted script answers `Done`. */
  function NextReply(script: seq<Reply>): Reply {
    if script == [] then Done else script[0]
  }

  function Remaining(script: seq<Reply>): seq<Reply> {
    if script == [] then [] else script[1..]
  }

  function Min(a: int, b: int): int {
    if a < b then a else b
  }

  function Max(a: int, b: int): int {
    if a < b then b else a
  }

  /** The sum of `weight` over a list. */
  function Total<T>(items: seq<T>, weight: T -> nat): nat {
    if items == [] then 0
    else Total(items[..|items| - 1], weight) + weight(items[|items| - 1])
  }

  lemma TotalAppend<T>(items: seq<T>, x: T, weight: T -> nat)
    ensures Total(items + [x], weight) == Total(items, weight) + weight(x)
  {
    assert (items + [x])[..|items|] == items;
  }

  lemma {:induction false} TotalUpdate<T>(items: seq<T>, i: nat, x: T, weight: T -> nat)
    requires i < |items|
    ensures Total(items[i := x], weight) + weight(items[i]) == Total(items, weight) + weight(x)
  {
    var n := |items| - 1;
    if i == n {
      assert items[i := x][..n] == items[..n];
    } else {
      assert items[i := x][..n] == items[..n][i := x];
      TotalUpdate(items[..n], i, x, weight);
    }
  }

  lemma {:induction false} TotalMember<T>(items: seq<T>, i: nat, weight: T -> nat)
    requires i < |items|
    ensures weight(items[i]) <= Total(items, weight)
  {
    var n := |items| - 1;
    if i < n {
      TotalMember(items[..n], i, weight);
    }
  }

  lemma {:induction false} TotalMonotone<T>(items: seq<T>, f: T -> nat, g: T -> nat)
    requires forall i :: 0 <= i < |items| ==> f(items[i]) <= g(items[i])
    ensures Total(items, f) <= Total(items, g)
  {
    if items != [] {
      TotalMonotone(items[..|items| - 1], f, g);
    }
  }
}
