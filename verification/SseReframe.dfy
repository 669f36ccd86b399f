/** Re-framing a byte stream on blank lines (live_monitor.py): the frame boundary of the
    event-stream format of the WHATWG HTML Standard, section 9.2.5, for LF LF. */
module SseReframe {
  import opened Common

  newtype byte = x: int | 0 <= x < 256

  const LF: byte := 10
  const CARRY_MAX_BYTES := 65536

  predicate BreakAt(s: seq<byte>, i: nat) {
    i + 1 < |s| && s[i] == LF && s[i + 1] == LF
  }

  function FirstBreak(s: seq<byte>, from: nat): (r: Option<nat>)
    requires from <= |s|
    ensures r.Some? ==> from <= r.value && BreakAt(s, r.value) && forall j :: from <= j < r.value ==> !BreakAt(s, j)
    ensures r.None? ==> forall j :: from <= j ==> !BreakAt(s, j)
    decreases |s| - from
  {
    if from == |s| then None
    else if BreakAt(s, from) then Some(from)
    else FirstBreak(s, from + 1)
  }

  datatype Framing = Framing(frames: seq<seq<byte>>, rest: seq<byte>)

  /** All frames of a byte string, and what follows the last delimiter. */
  function Frames(s: seq<byte>): Framing
    decreases |s|
  {
    match FirstBreak(s, 0)
    case None => Framing([], s)
    case Some(i) =>
      var more := Frames(s[i + 2..]);
      Framing([s[..i]] + more.frames, more.rest)
  }

  /** One call of `feed`: the frames consumed, and the carry afterwards. */
  function Feed(carry: seq<byte>, chunk: seq<byte>): Framing {
    var f := Frames(carry + chunk);
    if |f.rest| > CARRY_MAX_BYTES then f.(rest := []) else f
  }

  function FeedAll(carry: seq<byte>, chunks: seq<seq<byte>>): Framing
    decreases |chunks|
  {
    if chunks == [] then Framing([], carry)
    else
      var one := Feed(carry, chunks[0]);
      var more := FeedAll(one.rest, chunks[1..]);
      Framing(one.frames + more.frames, more.rest)
  }

  function Concat(chunks: seq<seq<byte>>): seq<byte> {
    if chunks == [] then [] else chunks[0] + Concat(chunks[1..])
  }

  // ----- framing is compositional ---------------------------------------------------------------

  lemma FirstBreakKept(a: seq<byte>, b: seq<byte>)
    requires FirstBreak(a, 0).Some?
    ensures FirstBreak(a + b, 0) == FirstBreak(a, 0)
  {
    var i := FirstBreak(a, 0).value;
    assert BreakAt(a + b, i);
    forall j | 0 <= j < i
      ensures !BreakAt(a + b, j)
    {
      assert !BreakAt(a, j);
    }
    assert FirstBreak(a + b, 0).Some?;
  }

  lemma FramesCons(s: seq<byte>, i: nat, h: seq<byte>, t: seq<byte>)
    requires FirstBreak(s, 0) == Some(i) && i + 2 <= |s| && h == s[..i] && t == s[i + 2..]
    ensures Frames(s) == Framing([h] + Frames(t).frames, Frames(t).rest)
  {
  }

  lemma BreakSplits(a: seq<byte>, b: seq<byte>, i: nat)
    requires FirstBreak(a, 0) == Some(i)
    ensures i + 2 <= |a| && FirstBreak(a + b, 0) == Some(i)
    ensures (a + b)[..i] == a[..i] && (a + b)[i + 2..] == a[i + 2..] + b
  {
    FirstBreakKept(a, b);
  }

  /** Framing the whole is framing the first part and then its remainder with the second. */
  lemma {:induction false} FramesAppend(a: seq<byte>, b: seq<byte>)
    ensures var fa, f := Frames(a), Frames(a + b);
            var fb := Frames(fa.rest + b);
            f.frames == fa.frames + fb.frames && f.rest == fb.rest
    decreases |a|
  {
    if FirstBreak(a, 0).None? {
      assert Frames(a) == Framing([], a);
    } else {
      var i := FirstBreak(a, 0).value;
      BreakSplits(a, b, i);
      var h, t := a[..i], a[i + 2..];
      FramesCons(a, i, h, t);
      FramesCons(a + b, i, h, t + b);
      FramesAppend(t, b);
      Associates([h], Frames(t).frames, Frames(Frames(t).rest + b).frames);
    }
  }

  lemma Associates<T>(a: seq<T>, b: seq<T>, c: seq<T>)
    ensures a + (b + c) == a + b + c
  {
  }

  /** The remainder holds no delimiter, so it is its own remainder. */
  lemma {:induction false} RestHasNoBreak(s: seq<byte>)
    ensures forall j :: !BreakAt(Frames(s).rest, j)
    ensures Frames(Frames(s).rest) == Framing([], Frames(s).rest)
    decreases |s|
  {
    if FirstBreak(s, 0).Some? {
      RestHasNoBreak(s[FirstBreak(s, 0).value + 2..]);
    }
  }

  // ----- what a framing is ------------------------------------------------------------------------

  const DELIMITER: seq<byte> := [LF, LF]

  /** Frames put back together, each with its delimiter. */
  function Delimited(frames: seq<seq<byte>>): seq<byte> {
    if frames == [] then [] else frames[0] + DELIMITER + Delimited(frames[1..])
  }

  /** A frame that ends where its delimiter is first seen. */
  ghost predicate Tight(g: seq<byte>) {
    forall j: nat :: j < |g| ==> !BreakAt(g + DELIMITER, j)
  }

  ghost predicate Unbroken(s: seq<byte>) {
    forall j: nat :: !BreakAt(s, j)
  }

  lemma TightIsFirst(g: seq<byte>, later: seq<byte>)
    ensures Tight(g) <==> FirstBreak(g + DELIMITER + later, 0) == Some(|g|)
  {
    var s := g + DELIMITER + later;
    assert BreakAt(s, |g|);
    forall j: nat | j < |g|
      ensures BreakAt(s, j) <==> BreakAt(g + DELIMITER, j)
    {
    }
  }

  lemma SplitAt(s: seq<byte>, i: nat)
    requires BreakAt(s, i)
    ensures s[..i + 2] == s[..i] + DELIMITER && s == s[..i] + DELIMITER + s[i + 2..]
  {
    assert s[i..i + 2] == DELIMITER;
    assert s[..i + 2] == s[..i] + s[i..i + 2];
    assert s == s[..i + 2] + s[i + 2..];
  }

  lemma TightFront(s: seq<byte>, i: nat)
    requires FirstBreak(s, 0) == Some(i)
    ensures Tight(s[..i])
  {
    SplitAt(s, i);
    forall j: nat | j < i
      ensures !BreakAt(s[..i] + DELIMITER, j)
    {
      assert !BreakAt(s, j);
    }
  }

  lemma FrameTaken(s: seq<byte>)
    requires FirstBreak(s, 0).Some?
    ensures var i := FirstBreak(s, 0).value;
            i + 2 <= |s| && s == s[..i] + DELIMITER + s[i + 2..] && Tight(s[..i])
  {
    SplitAt(s, FirstBreak(s, 0).value);
    TightFront(s, FirstBreak(s, 0).value);
  }

  /** The framing of a byte string is the one way to write it as frames, each ending where its
      delimiter is first seen, with their delimiters, and a remainder without one. */
  lemma {:induction false} FramesExactly(s: seq<byte>, frames: seq<seq<byte>>, rest: seq<byte>)
    ensures Frames(s) == Framing(frames, rest)
            <==> s == Delimited(frames) + rest && (forall g <- frames :: Tight(g)) && Unbroken(rest)
    decreases |s|
  {
    if Frames(s) == Framing(frames, rest) {
      FramesAreExact(s);
    }
    if s == Delimited(frames) + rest && (forall g <- frames :: Tight(g)) && Unbroken(rest) {
      ExactAreFrames(frames, rest);
    }
  }

  lemma {:induction false} FramesAreExact(s: seq<byte>)
    ensures var f := Frames(s);
            s == Delimited(f.frames) + f.rest && (forall g <- f.frames :: Tight(g)) && Unbroken(f.rest)
    decreases |s|
  {
    if FirstBreak(s, 0).Some? {
      var i := FirstBreak(s, 0).value;
      FrameTaken(s);
      var more := Frames(s[i + 2..]);
      FramesAreExact(s[i + 2..]);
      FramesCons(s, i, s[..i], s[i + 2..]);
      assert ([s[..i]] + more.frames)[1..] == more.frames;
      Associates(s[..i] + DELIMITER, Delimited(more.frames), more.rest);
    }
  }

  lemma FrameInFront(g: seq<byte>, t: seq<byte>)
    requires Tight(g)
    ensures Frames(g + DELIMITER + t) == Framing([g] + Frames(t).frames, Frames(t).rest)
  {
    var s := g + DELIMITER + t;
    TightIsFirst(g, t);
    assert s[..|g|] == g && s[|g| + 2..] == t;
    FramesCons(s, |g|, g, t);
  }

  lemma {:induction false} ExactAreFrames(frames: seq<seq<byte>>, rest: seq<byte>)
    requires (forall g <- frames :: Tight(g)) && Unbroken(rest)
    ensures Frames(Delimited(frames) + rest) == Framing(frames, rest)
    decreases |frames|
  {
    if frames == [] {
      assert [] + rest == rest;
    } else {
      var g, more := frames[0], frames[1..];
      ExactAreFrames(more, rest);
      FrameInFront(g, Delimited(more) + rest);
      Associates(g + DELIMITER, Delimited(more), rest);
      assert [g] + more == frames;
    }
  }

  /** A feed consumes the frames of carry and chunk, and carries their remainder: all of it up
      to the cap, nothing of it beyond. */
  lemma FeedExactly(carry: seq<byte>, chunk: seq<byte>, frames: seq<seq<byte>>, rest: seq<byte>)
    requires carry + chunk == Delimited(frames) + rest && (forall g <- frames :: Tight(g)) && Unbroken(rest)
    ensures Feed(carry, chunk) == Framing(frames, if |rest| <= CARRY_MAX_BYTES then rest else [])
  {
    FramesExactly(carry + chunk, frames, rest);
  }

  // ----- bytes are accounted for -----------------------------------------------------------------

  function Bytes(frames: seq<seq<byte>>): nat {
    if frames == [] then 0 else |frames[0]| + 2 + Bytes(frames[1..])
  }

  lemma {:induction false} BytesConcat(a: seq<seq<byte>>, b: seq<seq<byte>>)
    ensures Bytes(a + b) == Bytes(a) + Bytes(b)
  {
    if a == [] {
      assert a + b == b;
    } else {
      BytesConcat(a[1..], b);
      assert (a + b)[1..] == a[1..] + b;
    }
  }

  lemma {:induction false} FramesAccount(s: seq<byte>)
    ensures Bytes(Frames(s).frames) + |Frames(s).rest| == |s|
    decreases |s|
  {
    if FirstBreak(s, 0).Some? {
      var i := FirstBreak(s, 0).value;
      FramesAccount(s[i + 2..]);
      assert ([s[..i]] + Frames(s[i + 2..]).frames)[1..] == Frames(s[i + 2..]).frames;
    }
  }

  /** Some call throws its carry away. */
  predicate Drops(carry: seq<byte>, chunks: seq<seq<byte>>)
    decreases |chunks|
  {
    chunks != []
    && (|Frames(carry + chunks[0]).rest| > CARRY_MAX_BYTES || Drops(Feed(carry, chunks[0]).rest, chunks[1..]))
  }

  lemma {:induction false} FeedAccounts(carry: seq<byte>, chunks: seq<seq<byte>>)
    ensures var f := FeedAll(carry, chunks);
            && Bytes(f.frames) + |f.rest| <= |carry| + |Concat(chunks)|
            && (Bytes(f.frames) + |f.rest| < |carry| + |Concat(chunks)| <==> Drops(carry, chunks))
    decreases |chunks|
  {
    if chunks != [] {
      var one := Feed(carry, chunks[0]);
      FramesAccount(carry + chunks[0]);
      FeedAccounts(one.rest, chunks[1..]);
      BytesConcat(one.frames, FeedAll(one.rest, chunks[1..]).frames);
    }
  }

  lemma {:induction false} UndroppedFeeds(carry: seq<byte>, chunks: seq<seq<byte>>)
    requires !Drops(carry, chunks) && Frames(carry) == Framing([], carry)
    ensures FeedAll(carry, chunks) == Frames(carry + Concat(chunks))
    decreases |chunks|
  {
    if chunks == [] {
      assert carry + [] == carry;
    } else {
      var one := Feed(carry, chunks[0]);
      RestHasNoBreak(carry + chunks[0]);
      UndroppedFeeds(one.rest, chunks[1..]);
      FramesAppend(carry + chunks[0], Concat(chunks[1..]));
      assert carry + Concat(chunks) == (carry + chunks[0]) + Concat(chunks[1..]);
    }
  }

  /** A way of cutting the stream yields the frames and the remainder of the uncut stream
      exactly when no call throws its carry away. */
  lemma CutIsHarmlessExactly(chunks: seq<seq<byte>>)
    ensures FeedAll([], chunks) == Frames(Concat(chunks)) <==> !Drops([], chunks)
  {
    FeedAccounts([], chunks);
    FramesAccount(Concat(chunks));
    if !Drops([], chunks) {
      UndroppedFeeds([], chunks);
      assert [] + Concat(chunks) == Concat(chunks);
    }
  }

  // ----- independence of the cuts ------------------------------------------------------------------

  /** No frame reaches the cap with one delimiter byte, and neither does the remainder. */
  predicate Bounded(f: Framing) {
    (forall g <- f.frames :: |g| + 1 <= CARRY_MAX_BYTES) && |f.rest| <= CARRY_MAX_BYTES
  }

  /** What is carried at a cut is part of a frame and its first delimiter byte, or part of
      the remainder. */
  lemma {:induction false} CarryBounded(a: seq<byte>, b: seq<byte>)
    requires Bounded(Frames(a + b))
    ensures |Frames(a).rest| <= CARRY_MAX_BYTES
    decreases |a|
  {
    var s := a + b;
    if FirstBreak(a, 0).Some? {
      var i := FirstBreak(a, 0).value;
      FirstBreakKept(a, b);
      assert s[i + 2..] == a[i + 2..] + b;
      var more := Frames(s[i + 2..]);
      assert forall g <- more.frames :: g in Frames(s).frames;
      CarryBounded(a[i + 2..], b);
    } else if FirstBreak(s, 0).Some? {
      var i := FirstBreak(s, 0).value;
      assert Frames(s).frames[0] == s[..i];
      assert |a| > i + 1 ==> BreakAt(a, i);
    }
  }

  lemma CarryFollows(done: seq<byte>, carry: seq<byte>, chunk: seq<byte>, later: seq<byte>)
    requires carry == Frames(done).rest && Bounded(Frames(done + chunk + later))
    ensures Frames(done + chunk).rest == Frames(carry + chunk).rest == Feed(carry, chunk).rest
    ensures |Frames(carry + chunk).rest| <= CARRY_MAX_BYTES
  {
    FramesAppend(done, chunk);
    CarryBounded(done + chunk, later);
  }

  lemma {:induction false} BoundedNeverDrops(done: seq<byte>, carry: seq<byte>, chunks: seq<seq<byte>>)
    requires carry == Frames(done).rest && Bounded(Frames(done + Concat(chunks)))
    ensures !Drops(carry, chunks)
    decreases |chunks|
  {
    if chunks != [] {
      var now := done + chunks[0];
      Associates(done, chunks[0], Concat(chunks[1..]));
      CarryFollows(done, carry, chunks[0], Concat(chunks[1..]));
      BoundedNeverDrops(now, Feed(carry, chunks[0]).rest, chunks[1..]);
    }
  }

  /** Cutting a stream in two at `k`. */
  lemma TwoCuts(s: seq<byte>, k: nat)
    requires k <= |s|
    ensures Concat([s[..k], s[k..]]) == s
    ensures |Frames(s[..k]).rest| > CARRY_MAX_BYTES ==> Drops([], [s[..k], s[k..]])
  {
    assert [s[..k], s[k..]][1..] == [s[k..]] && [s[k..]][1..] == [];
    assert Concat([s[k..]]) == s[k..] + [];
    assert [] + s[..k] == s[..k];
  }

  /** A frame too long is carried whole, with one delimiter byte, by a cut in its delimiter. */
  lemma {:induction false} LongFrameCarried(s: seq<byte>) returns (k: nat)
    requires exists g <- Frames(s).frames :: |g| + 1 > CARRY_MAX_BYTES
    ensures k <= |s| && |Frames(s[..k]).rest| > CARRY_MAX_BYTES
    decreases |s|
  {
    var i := FirstBreak(s, 0).value;
    var more := Frames(s[i + 2..]);
    assert Frames(s).frames == [s[..i]] + more.frames;
    if |s[..i]| + 1 > CARRY_MAX_BYTES {
      k := i + 1;
      forall j
        ensures !BreakAt(s[..k], j)
      {
        assert BreakAt(s[..k], j) ==> BreakAt(s, j);
      }
      assert Frames(s[..k]) == Framing([], s[..k]);
    } else {
      var g :| g in Frames(s).frames && |g| + 1 > CARRY_MAX_BYTES;
      assert g in more.frames;
      var k' := LongFrameCarried(s[i + 2..]);
      k := i + 2 + k';
      assert s[..k] == s[..i + 2] + s[i + 2..][..k'];
      DelimitedFirst(s, i);
      FirstBreakKept(s[..i + 2], s[i + 2..][..k']);
      assert s[..k][i + 2..] == s[i + 2..][..k'];
    }
  }

  lemma DelimitedFirst(s: seq<byte>, i: nat)
    requires FirstBreak(s, 0) == Some(i)
    ensures FirstBreak(s[..i + 2], 0) == Some(i)
  {
    var t := s[..i + 2];
    assert BreakAt(t, i);
    forall j: nat | j < i
      ensures !BreakAt(t, j)
    {
      assert !BreakAt(s, j);
    }
  }

  /** Every way of cutting the stream gives the same frames in the same order and the same
      carry exactly when every frame stays below the carry cap with one delimiter byte and
      the remainder within it. */
  lemma CutsNeverMatterExactly(s: seq<byte>)
    ensures Bounded(Frames(s)) <==> forall chunks :: Concat(chunks) == s ==> FeedAll([], chunks) == Frames(s)
  {
    if Bounded(Frames(s)) {
      forall chunks | Concat(chunks) == s
        ensures FeedAll([], chunks) == Frames(s)
      {
        assert [] + Concat(chunks) == s;
        BoundedNeverDrops([], [], chunks);
        CutIsHarmlessExactly(chunks);
      }
    } else {
      var k;
      if |Frames(s).rest| > CARRY_MAX_BYTES {
        k := |s|;
        assert s[..k] == s;
      } else {
        k := LongFrameCarried(s);
      }
      TwoCuts(s, k);
      CutIsHarmlessExactly([s[..k], s[k..]]);
    }
  }
}
