/** Live output buffers (live_monitor.py): re-framed input, a bounded replay tail, fan-out to
    bounded subscriber queues, and an LRU dictionary of buffers. */
module LiveOutput {
  import opened Common
  import opened SseReframe

  const MAX_SUBS_PER_GEN := 32
  const QUEUE_MAX := 512

  /** Python's s[-n:], where -0 keeps everything. */
  function LastN(s: string, n: nat): string {
    if n == 0 || |s| <= n then s else s[|s| - n..]
  }

  predicate IsSuffix(a: string, b: string) {
    |a| <= |b| && b[|b| - |a|..] == a
  }

  /** Cutting the tail after every piece is cutting the whole transcript once. */
  lemma TailOfTail(transcript: string, piece: string, n: nat)
    ensures LastN(LastN(transcript, n) + piece, n) == LastN(transcript + piece, n)
  {
  }

  /** The tail is an end of the transcript, and as long as the bound lets it be. */
  lemma TailIsSuffix(transcript: string, n: nat)
    ensures IsSuffix(LastN(transcript, n), transcript)
    ensures n > 0 ==> |LastN(transcript, n)| == if |transcript| <= n then |transcript| else n
  {
  }

  lemma SuffixGrows(a: string, b: string, piece: string)
    requires IsSuffix(a, b)
    ensures IsSuffix(a + piece, b + piece)
  {
    assert (b + piece)[|b| - |a|..] == b[|b| - |a|..] + piece;
  }

  /** A subscriber's bounded queue; None is the done sentinel. */
  class Subscriber {
    var items: seq<Option<string>>
    const replay: string
    ghost var seen: string       // pieces accepted since the subscription, taken out or not
    ghost var missed: bool       // a piece found the queue full

    constructor (replay: string)
      ensures items == [] && this.replay == replay && seen == "" && !missed
    {
      items, this.replay, seen, missed := [], replay, "", false;
    }

    /** `put_nowait` of a piece, a full queue being ignored. */
    method Put(piece: string)
      modifies this
      ensures !missed <==> !old(missed) && |old(items)| < QUEUE_MAX
      ensures seen == if |old(items)| < QUEUE_MAX then old(seen) + piece else old(seen)
      ensures items == if |old(items)| < QUEUE_MAX then old(items) + [Some(piece)] else old(items)
    {
      if |items| < QUEUE_MAX {
        items, seen := items + [Some(piece)], seen + piece;
      } else {
        missed := true;
      }
    }

    /** `put_nowait` of the sentinel. */
    method PutDone()
      modifies `items
      ensures items == WithSentinel(old(items))
    {
      if |items| < QUEUE_MAX {
        items := items + [None];
      }
    }
  }

  /** The text of a list of frames; `text` extracts one frame's pieces, "" when none. */
  function TextOf(frames: seq<seq<byte>>, text: seq<byte> -> string): string {
    if frames == [] then "" else text(frames[0]) + TextOf(frames[1..], text)
  }

  /** The text of frames in a row is their texts in a row. */
  lemma {:induction false} TextConcat(a: seq<seq<byte>>, b: seq<seq<byte>>, text: seq<byte> -> string)
    ensures TextOf(a + b, text) == TextOf(a, text) + TextOf(b, text)
    ensures forall f :: TextOf([f], text) == text(f)
  {
    forall f: seq<byte>
      ensures TextOf([f], text) == text(f)
    {
      assert [f][1..] == [];
      assert text(f) + "" == text(f);
    }
    if a == [] {
      assert [] + b == b;
    } else {
      TextConcat(a[1..], b, text);
      assert (a + b)[1..] == a[1..] + b;
    }
  }

  /** However the stream is cut, the same text comes out, provided no carry is dropped. */
  lemma TextIndependentOfCuts(chunks: seq<seq<byte>>, text: seq<byte> -> string)
    requires !Drops([], chunks)
    ensures TextOf(FeedAll([], chunks).frames, text) == TextOf(Frames(Concat(chunks)).frames, text)
  {
    CutIsHarmlessExactly(chunks);
  }

  /** The text so far and what is still in the carry make up `total`, leaving `rest`. */
  ghost predicate Remaining(transcript: string, carry: seq<byte>, text: seq<byte> -> string, total: string,
                            rest: seq<byte>) {
    transcript + TextOf(Frames(carry).frames, text) == total && Frames(carry).rest == rest
  }

  lemma RemainingStep(transcript: string, carry: seq<byte>, text: seq<byte> -> string, total: string, rest: seq<byte>,
                      at: nat)
    requires Remaining(transcript, carry, text, total, rest) && FirstBreak(carry, 0) == Some(at)
    ensures at + 2 <= |carry| && Remaining(transcript + text(carry[..at]), carry[at + 2..], text, total, rest)
  {
    var frame, later := carry[..at], carry[at + 2..];
    FramesCons(carry, at, frame, later);
    TextOfCons(frame, Frames(later).frames, text);
    Associates(transcript, text(frame), TextOf(Frames(later).frames, text));
  }

  lemma TextOfCons(frame: seq<byte>, more: seq<seq<byte>>, text: seq<byte> -> string)
    ensures TextOf([frame] + more, text) == text(frame) + TextOf(more, text)
  {
    assert ([frame] + more)[1..] == more;
  }

  lemma RemainingNone(transcript: string, carry: seq<byte>, text: seq<byte> -> string, total: string, rest: seq<byte>)
    requires Remaining(transcript, carry, text, total, rest) && FirstBreak(carry, 0) == None
    ensures transcript == total && carry == rest
  {
    assert Frames(carry) == Framing([], carry);
    assert transcript + "" == transcript;
  }

  /** `_GenBuf`. */
  class GenBuf {
    const tailBytes: nat
    var tail: string
    var carry: seq<byte>
    var done: bool
    var subs: set<Subscriber>
    ghost var transcript: string   // everything ever appended

    constructor (tailBytes: nat)
      ensures Valid() && this.tailBytes == tailBytes && carry == [] && !done && subs == {} && transcript == ""
    {
      this.tailBytes, tail, carry, done, subs, transcript := tailBytes, "", [], false, {}, "";
    }

    ghost predicate Tuned(q: Subscriber)
      reads this, q
    {
      !q.missed ==> IsSuffix(q.replay + q.seen, transcript)
    }

    /** The tail is the end of the transcript, and so is what any subscriber that has missed
        nothing was given: the replay and then every piece since. */
    ghost predicate Valid()
      reads this, subs
    {
      && tail == LastN(transcript, tailBytes)
      && |subs| <= MAX_SUBS_PER_GEN
      && forall q <- subs :: Tuned(q)
    }

    /** `_append`. */
    method Append(piece: string)
      requires Valid()
      modifies this`tail, this`transcript, subs
      ensures Valid() && transcript == old(transcript) + piece
    {
      TailOfTail(transcript, piece, tailBytes);
      tail := LastN(tail + piece, tailBytes);
      ghost var was := transcript;
      transcript := transcript + piece;
      var rest := subs;
      while rest != {}
        invariant rest <= subs == old(subs) && transcript == was + piece && tail == LastN(transcript, tailBytes)
        invariant forall q <- subs - rest :: Tuned(q)
        invariant forall q <- rest :: !q.missed ==> IsSuffix(q.replay + q.seen, was)
        decreases |rest|
      {
        var q :| q in rest;
        if !q.missed {
          SuffixGrows(q.replay + q.seen, was, piece);
          assert q.replay + (q.seen + piece) == q.replay + q.seen + piece;
        }
        q.Put(piece);
        rest := rest - {q};
      }
    }

    /** One turn of the loop of `feed`: split off a frame and consume it. */
    method ConsumeFrame(at: nat, text: seq<byte> -> string)
      requires Valid() && at + 2 <= |carry|
      modifies this`tail, this`carry, this`transcript, subs
      ensures Valid() && carry == old(carry)[at + 2..] && transcript == old(transcript) + text(old(carry)[..at])
    {
      var piece := text(carry[..at]);
      carry := carry[at + 2..];
      if piece != "" {
        Append(piece);
      } else {
        assert transcript + "" == transcript;
      }
    }

    /** `feed`: re-frame and consume. */
    method Feed(chunk: seq<byte>, text: seq<byte> -> string)
      requires Valid()
      modifies this`tail, this`carry, this`transcript, subs
      ensures Valid() && carry == SseReframe.Feed(old(carry), chunk).rest
      ensures transcript == old(transcript) + TextOf(SseReframe.Feed(old(carry), chunk).frames, text)
    {
      carry := carry + chunk;
      ghost var total, rest := transcript + TextOf(Frames(carry).frames, text), Frames(carry).rest;
      var at := FirstBreak(carry, 0);
      while at.Some?
        invariant Valid() && at == FirstBreak(carry, 0) && Remaining(transcript, carry, text, total, rest)
        decreases |carry|
      {
        RemainingStep(transcript, carry, text, total, rest, at.value);
        ConsumeFrame(at.value, text);
        at := FirstBreak(carry, 0);
      }
      RemainingNone(transcript, carry, text, total, rest);
      if |carry| > CARRY_MAX_BYTES {
        carry := [];
      }
    }

    /** The body of `mark_done`: the sentinel goes to everybody and changes nothing of what
        they were given. */
    method MarkDone()
      requires Valid()
      modifies `done, subs
      ensures Valid() && done
      ensures forall q <- subs ::
              q.items == WithSentinel(old(q.items)) && q.seen == old(q.seen) && q.missed == old(q.missed)
    {
      done := true;
      var rest := subs;
      while rest != {}
        invariant done && rest <= subs
        invariant forall q <- subs - rest :: q.items == WithSentinel(old(q.items))
        invariant forall q <- rest :: q.items == old(q.items)
        invariant forall q <- subs :: q.seen == old(q.seen) && q.missed == old(q.missed)
        decreases |rest|
      {
        var q :| q in rest;
        q.PutDone();
        rest := rest - {q};
      }
      assert forall q <- subs :: old(Tuned(q)) ==> Tuned(q);
    }

    /** The body of `subscribe` once the buffer is found. */
    method Subscribe() returns (q: Subscriber?, replay: string, isDone: bool)
      requires Valid()
      modifies this`subs
      ensures Valid() && replay == tail && isDone == done
      ensures q == null <==> |old(subs)| >= MAX_SUBS_PER_GEN
      ensures q == null ==> subs == old(subs)
      ensures q != null ==> fresh(q) && subs == old(subs) + {q} && q.replay == tail && q.items == []
    {
      replay, isDone, q := tail, done, null;
      if |subs| < MAX_SUBS_PER_GEN {
        q := new Subscriber(tail);
        TailIsSuffix(transcript, tailBytes);
        assert q.replay + q.seen == tail;
        subs := subs + {q};
      }
    }
  }

  /** What a bounded queue holds after the sentinel was offered to it. */
  function WithSentinel(items: seq<Option<string>>): seq<Option<string>> {
    if |items| < QUEUE_MAX then items + [None] else items
  }

  // ----- the dictionary of buffers -------------------------------------------------------------------

  /** The oldest key nobody watches. */
  function FirstFree(order: seq<string>, watched: set<string>): (r: Option<nat>)
    ensures r.Some? ==> r.value < |order| && order[r.value] !in watched
                        && forall j :: 0 <= j < r.value ==> order[j] in watched
    ensures r.None? ==> forall k <- order :: k in watched
  {
    if order == [] then None
    else if order[0] !in watched then Some(0)
    else match FirstFree(order[1..], watched)
      case None => None
      case Some(i) => Some(i + 1)
  }

  /** `_evict`: drop the oldest unwatched keys while there are more than `max`. */
  function Evicted(order: seq<string>, watched: set<string>, max: nat): seq<string>
    decreases |order|
  {
    if |order| <= max then order
    else match FirstFree(order, watched)
      case None => order
      case Some(i) => Evicted(RemoveAt(order, i), watched, max)
  }

  /** A watched buffer is never evicted, and nothing is invented. */
  lemma {:induction false} EvictionSparesWatched(order: seq<string>, watched: set<string>, max: nat)
    requires Distinct(order)
    ensures var kept := Evicted(order, watched, max);
            && Distinct(kept)
            && (forall k <- kept :: k in order)
            && (forall k <- order :: k in watched ==> k in kept)
            && (|kept| <= max || forall k <- kept :: k in watched)
    decreases |order|
  {
    if |order| > max && FirstFree(order, watched).Some? {
      var i := FirstFree(order, watched).value;
      RemoveAtMembers(order, i);
      EvictionSparesWatched(RemoveAt(order, i), watched, max);
    }
  }

  /** While there are too many keys, the oldest unwatched one goes, and the rest is evicted
      from as if it had never been there. */
  lemma OldestFreeGoes(order: seq<string>, watched: set<string>, max: nat, k: nat)
    requires Distinct(order) && |order| > max
    requires k < |order| && order[k] !in watched && forall j :: 0 <= j < k ==> order[j] in watched
    ensures Evicted(order, watched, max) == Evicted(RemoveAt(order, k), watched, max)
    ensures order[k] !in Evicted(order, watched, max)
  {
    assert FirstFree(order, watched) == Some(k) by {
      assert order[FirstFree(order, watched).value] !in watched;
    }
    RemoveAtMembers(order, k);
    EvictionSparesWatched(RemoveAt(order, k), watched, max);
  }

  /** Eviction takes no more than it must. */
  lemma {:induction false} EvictedEnough(order: seq<string>, watched: set<string>, max: nat)
    ensures |order| >= max ==> |Evicted(order, watched, max)| >= max
    ensures |order| <= max ==> Evicted(order, watched, max) == order
    decreases |order|
  {
    if |order| > max && FirstFree(order, watched).Some? {
      EvictedEnough(RemoveAt(order, FirstFree(order, watched).value), watched, max);
    }
  }

  /** A new key, unwatched, joins at the young end: afterwards there are at most `max` keys,
      and the new one is among them exactly when there was room or some other key was
      unwatched; otherwise it is itself the one evicted. */
  lemma NewKeyKeptExactly(order: seq<string>, key: string, watched: set<string>, max: nat)
    requires Distinct(order) && key !in order && key !in watched && |order| <= max
    ensures var kept := Evicted(order + [key], watched, max);
            && |kept| <= max
            && (key in kept <==> |order| < max || exists k <- order :: k !in watched)
            && (key !in kept ==> kept == order)
  {
    var all := order + [key];
    if |all| > max {
      assert all[|order|] == key;
      var i := FirstFree(all, watched).value;
      if exists k <- order :: k !in watched {
        var j :| 0 <= j < |order| && order[j] !in watched;
        assert all[j] == order[j];
        assert i <= j;
        assert RemoveAt(all, i)[|order| - 1] == key;
      } else {
        forall j | 0 <= j < |order|
          ensures all[j] in watched
        {
          assert order[j] in order;
        }
        assert RemoveAt(all, i) == order;
      }
    } else {
      assert all[|order|] == key;
    }
  }

  datatype Lookup = Found(buf: GenBuf) | Absent | KeyError

  /** `LiveOutputBuffer`; `order` is the insertion order of the OrderedDict, oldest first. */
  class LiveOutputBuffer {
    const maxKeys: nat
    const tailBytes: nat
    var buffers: map<string, GenBuf>
    var order: seq<string>

    constructor (maxKeys: nat, tailBytes: nat)
      ensures Valid() && this.maxKeys == maxKeys && this.tailBytes == tailBytes && order == []
    {
      this.maxKeys, this.tailBytes, buffers, order := maxKeys, tailBytes, map[], [];
    }

    ghost predicate Valid()
      reads this
    {
      && Distinct(order) && |order| <= maxKeys
      && Listed()
    }

    ghost predicate Listed()
      reads this
    {
      forall k :: k in order <==> k in buffers
    }

    function Watched(): set<string>
      reads this, buffers.Values
    {
      set k <- buffers.Keys | buffers[k].subs != {}
    }

    /** The oldest key nobody watches, or the number of keys. */
    method OldestFree(ghost watched: set<string>) returns (i: nat)
      requires Listed() && forall k <- buffers.Keys :: k in watched <==> buffers[k].subs != {}
      ensures i <= |order| && FirstFree(order, watched) == if i < |order| then Some(i) else None
    {
      i := 0;
      while i < |order| && buffers[order[i]].subs != {}
        invariant i <= |order| && forall j :: 0 <= j < i ==> order[j] in watched
      {
        i := i + 1;
      }
      assert i < |order| ==> order[i] !in watched;
    }

    /** `_evict`. */
    method Evict()
      requires Distinct(order) && Listed()
      modifies this
      ensures Distinct(order) && Listed()
      ensures order == Evicted(old(order), old(Watched()), maxKeys)
      ensures forall k <- buffers.Keys :: k in old(buffers) && buffers[k] == old(buffers)[k]
    {
      ghost var watched := Watched();
      while |order| > maxKeys
        invariant Distinct(order) && Listed()
        invariant Evicted(order, watched, maxKeys) == Evicted(old(order), watched, maxKeys)
        invariant forall k <- buffers.Keys :: k in old(buffers) && buffers[k] == old(buffers)[k]
        decreases |order|
      {
        var i := OldestFree(watched);
        if i == |order| {
          return;
        }
        RemoveAtMembers(order, i);
        buffers := buffers - {order[i]};
        order := RemoveAt(order, i);
      }
    }

    /** A new buffer joins at the young end, then `_evict`. */
    method Insert(id: string, buf: GenBuf)
      requires Valid() && id !in buffers && buf.subs == {}
      modifies this
      ensures Valid()
      ensures order == Evicted(old(order) + [id], old(Watched()), maxKeys)
      ensures id in buffers ==> buffers[id] == buf
      ensures forall k <- buffers.Keys :: k == id || (k in old(buffers) && buffers[k] == old(buffers)[k])
    {
      ghost var watched := Watched();
      NewKeyKeptExactly(order, id, watched, maxKeys);
      DistinctWithNew(order, id);
      buffers := buffers[id := buf];
      order := order + [id];
      assert Watched() == watched;
      Evict();
    }

    method MoveToEnd(id: string)
      requires Valid() && id in buffers
      modifies `order
      ensures Valid() && order == Without(old(order), id) + [id]
    {
      WithoutKey(order, id);
      DistinctWithNew(Without(order, id), id);
      order := Without(order, id) + [id];
    }

    /** `_get`: a fresh buffer may push out the oldest unwatched one; when every other is
        watched at capacity it is itself pushed out, and moving it to the end fails. */
    method Get(id: string, create: bool) returns (r: Lookup)
      requires Valid()
      modifies this
      ensures Valid()
      ensures id in old(buffers) ==> r == Found(old(buffers)[id]) && order == Without(old(order), id) + [id]
      ensures id !in old(buffers) && !create ==> r == Absent && order == old(order)
      ensures id !in old(buffers) && create ==>
                (r == KeyError <==>
                 |old(order)| >= maxKeys && forall k <- old(buffers).Keys :: old(buffers[k].subs) != {})
                && (r == KeyError ==> order == old(order)) && r != Absent
      ensures forall k <- old(buffers).Keys ::
              old(buffers[k].subs) != {} ==> k in buffers && buffers[k] == old(buffers)[k]
    {
      if id !in buffers {
        if !create {
          return Absent;
        }
        var buf := new GenBuf(tailBytes);
        NewKeyKeptExactly(order, id, Watched(), maxKeys);
        DistinctWithNew(order, id);
        EvictionSparesWatched(order + [id], Watched(), maxKeys);
        Insert(id, buf);
        if id !in buffers {
          return KeyError;
        }
      }
      r := Found(buffers[id]);
      MoveToEnd(id);
    }

    /** `unsubscribe`: a finished buffer goes with its last watcher, any other stays. */
    method Unsubscribe(id: string, q: Subscriber)
      requires Valid()
      modifies this, buffers.Values
      ensures Valid()
      ensures id !in old(buffers) ==> buffers == old(buffers) && order == old(order)
      ensures id in old(buffers) ==>
        var buf := old(buffers)[id];
        && buf.subs == old(buf.subs) - {q}
        && (if buf.done && buf.subs == {} then buffers == old(buffers) - {id} && order == Without(old(order), id)
            else buffers == old(buffers) && order == old(order))
      ensures forall b <- old(buffers.Values) :: b.done == old(b.done) && b.transcript == old(b.transcript)
                                                 && ((id in old(buffers) && b == old(buffers)[id])
                                                     || b.subs == old(b.subs))
    {
      if id !in buffers {
        return;
      }
      var buf := buffers[id];
      buf.subs := buf.subs - {q};
      if buf.done && buf.subs == {} {
        WithoutKey(order, id);
        buffers := buffers - {id};
        order := Without(order, id);
      }
    }
  }

  function Without(order: seq<string>, id: string): seq<string> {
    if order == [] then [] else if order[0] == id then Without(order[1..], id) else [order[0]] + Without(order[1..], id)
  }

  /** Taking a key out leaves the others in their order. */
  lemma {:induction false} WithoutInOrder(order: seq<string>, id: string, i: nat)
    requires Distinct(order) && i < |order| && order[i] == id
    ensures Without(order, id) == RemoveAt(order, i)
    decreases |order|
  {
    DistinctTail(order);
    if i == 0 {
      WithoutAbsent(order[1..], id);
    } else {
      WithoutInOrder(order[1..], id, i - 1);
    }
  }

  lemma {:induction false} WithoutAbsent(order: seq<string>, id: string)
    requires id !in order
    ensures Without(order, id) == order
  {
    if order != [] {
      WithoutAbsent(order[1..], id);
    }
  }

  lemma {:induction false} WithoutKey(order: seq<string>, id: string)
    requires Distinct(order)
    ensures Distinct(Without(order, id)) && forall k :: k in Without(order, id) <==> k in order && k != id
    ensures |Without(order, id)| == if id in order then |order| - 1 else |order|
  {
    if order != [] {
      DistinctTail(order);
      WithoutKey(order[1..], id);
      assert forall k :: k in order <==> k == order[0] || k in order[1..];
    }
  }
}
