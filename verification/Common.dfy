/** The values every component of the model shares. */
module Common {

  datatype Option<+T> = None | Some(value: T)

  /** What identifies one accepted request for its whole life.  `created` is the
      monotonic time at which the request arrived (slot.py). */
  datatype Req = Req(id: nat, model: string, thread: string, created: real)

  /** What the environment answers next, read off a script; an exhausted one answers 0. */
  function NextAnswer(script: seq<int>): int {
    if script == [] then 0 else script[0]
  }

  function Later(script: seq<int>): seq<int> {
    if script == [] then [] else script[1..]
  }

  function RemoveAt<T>(s: seq<T>, i: nat): (r: seq<T>)
    requires i < |s|
    ensures |r| == |s| - 1
    ensures forall j :: 0 <= j < |r| ==> r[j] == if j < i then s[j] else s[j + 1]
  {
    s[..i] + s[i + 1..]
  }

  function Elements<T>(s: seq<T>): set<T> {
    set x | x in s
  }

  function Just<T>(x: Option<T>): set<T> {
    if x.Some? then {x.value} else {}
  }

  ghost predicate Distinct<T>(s: seq<T>) {
    forall i, j :: 0 <= i < j < |s| ==> s[i] != s[j]
  }

  /** Taking one element out of a duplicate-free sequence takes out every occurrence. */
  lemma RemoveAtMembers<T>(s: seq<T>, i: nat)
    requires i < |s| && Distinct(s)
    ensures Distinct(RemoveAt(s, i))
    ensures forall x :: x in RemoveAt(s, i) <==> x in s && x != s[i]
  {
    forall x | x in s && x != s[i]
      ensures x in RemoveAt(s, i)
    {
      var j :| 0 <= j < |s| && s[j] == x;
      assert RemoveAt(s, i)[if j < i then j else j - 1] == x;
    }
  }

  lemma DistinctWithNew<T>(s: seq<T>, x: T)
    requires Distinct(s) && x !in s
    ensures Distinct(s + [x]) && Distinct([x] + s)
  {
  }

  lemma DistinctTail<T>(s: seq<T>)
    requires Distinct(s) && s != []
    ensures Distinct(s[1..]) && s[0] !in s[1..]
  {
  }
}
