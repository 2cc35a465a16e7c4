/** When the way a stream is cut into reads matters to the lines the pump emits. */
module LineChunking {
  import opened LinePump

  // ---- What is left of a line when full segments are cut off -------------------------------------

  function Over(n: nat, cap: Cap): nat {
    if n < cap then n else Over(n - cap, cap)
  }

  lemma AtLeastOnce(k: nat, d: nat)
    requires k >= 1
    ensures k * d >= d
  {}

  lemma Distributes(p: nat, q: nat, d: nat)
    requires p >= q
    ensures p * d == q * d + (p - q) * d
  {}

  lemma RemainderUnique(n: nat, d: nat, q: nat, r: nat)
    requires r < d && n == q * d + r
    ensures n % d == r
  {
    var p, s := n / d, n % d;
    DivisionMeaning(n, d);
    if p > q {
      Distributes(p, q, d);
      AtLeastOnce(p - q, d);
    } else if q > p {
      Distributes(q, p, d);
      AtLeastOnce(q - p, d);
    }
  }

  lemma DivisionMeaning(n: nat, d: nat)
    requires d > 0
    ensures n == n / d * d + n % d && n % d < d && n / d >= 0
  {}

  /** That is the remainder of the length by the cap. */
  lemma {:induction false} OverIsRemainder(n: nat, cap: Cap)
    ensures Over(n, cap) == n % cap
  {
    if n >= cap {
      OverIsRemainder(n - cap, cap);
      var q := (n - cap) / cap;
      assert n == (q + 1) * cap + Over(n, cap);
      RemainderUnique(n, cap, q + 1, Over(n, cap));
    } else {
      RemainderUnique(n, cap, 0, n);
    }
  }

  lemma {:induction false} RemainderLength(s: string, cap: Cap)
    ensures |Remainder(s, cap)| == Over(|s|, cap)
  {
    if |s| >= cap { RemainderLength(s[cap..], cap); }
  }

  lemma {:induction false} OverAdds(n: nat, m: nat, cap: Cap)
    ensures Over(n + m, cap) == Over(Over(n, cap) + m, cap)
  {
    if n >= cap { OverAdds(n - cap, m, cap); }
  }

  lemma {:induction false} OverBack(n: nat, d: nat, cap: Cap)
    requires n >= cap && Over(n, cap) < d <= cap
    ensures Over(n - d, cap) + d == cap + Over(n, cap)
  {
    if n >= 2 * cap { OverBack(n - cap, d, cap); }
  }

  /** A terminated line of `n` characters is cut alike by all reads of at most `read` characters: it is
      below the cap, or its last read cannot hold the newline and reach back over the last cut. */
  predicate Steady(n: nat, cap: Cap, read: nat) {
    n < cap || n % cap + 1 >= read
  }

  predicate AllSteady(ls: seq<string>, cap: Cap, read: nat) {
    forall k :: 0 <= k < |ls| ==> Steady(|ls[k]|, cap, read)
  }

  // ---- Steady lines: one output for all reads ------------------------------------------------------

  function CutLine(line: string, cap: Cap): seq<string> {
    Segments(line, cap) + [StripCr(Remainder(line, cap))]
  }

  function CutAll(ls: seq<string>, cap: Cap): seq<string> {
    if ls == [] then [] else CutLine(ls[0], cap) + CutAll(ls[1..], cap)
  }

  /** Every line, terminated or open, cut at the cap as it grows. */
  function Canonical(t: Text, cap: Cap): seq<string> {
    CutAll(t.lines, cap) + Last(t.open, cap)
  }

  lemma {:induction false} CutAllAppend(a: seq<string>, b: seq<string>, cap: Cap)
    ensures CutAll(a + b, cap) == CutAll(a, cap) + CutAll(b, cap)
  {
    if a == [] {
      assert a + b == b;
    } else {
      assert (a + b)[1..] == a[1..] + b;
      CutAllAppend(a[1..], b, cap);
      Associative(CutLine(a[0], cap), CutAll(a[1..], cap), CutAll(b, cap));
    }
  }

  lemma {:induction false} CutAllShort(ls: seq<string>, cap: Cap)
    requires AllShort(ls, cap)
    ensures CutAll(ls, cap) == StripAll(ls)
  {
    if ls != [] {
      assert forall k :: 0 <= k < |ls| - 1 ==> ls[1..][k] == ls[k + 1];
      CutAllShort(ls[1..], cap);
      assert StripAll(ls) == [StripCr(ls[0])] + StripAll(ls[1..]);
    }
  }

  lemma CutLineAppend(open: string, more: string, cap: Cap)
    ensures CutLine(open + more, cap) == Segments(open, cap) + CutLine(Remainder(open, cap) + more, cap)
  {
    SegmentsAppend(open, more, cap);
    Associative(Segments(open, cap), Segments(Remainder(open, cap) + more, cap),
                [StripCr(Remainder(open + more, cap))]);
  }

  lemma PrefixedCanonical(open: string, t: Text, cap: Cap)
    ensures Canonical(Prefixed(open, t), cap)
         == Segments(open, cap) + Canonical(Prefixed(Remainder(open, cap), t), cap)
  {
    var rem := Remainder(open, cap);
    if t.lines == [] {
      LastAppend(open, t.open, cap);
    } else {
      var rest := CutAll(t.lines[1..], cap);
      CutLineAppend(open, t.lines[0], cap);
      CutAllCons(open + t.lines[0], t.lines[1..], cap);
      CutAllCons(rem + t.lines[0], t.lines[1..], cap);
      Associative(Segments(open, cap), CutLine(rem + t.lines[0], cap), rest);
      Associative(Segments(open, cap), CutLine(rem + t.lines[0], cap) + rest, Last(t.open, cap));
    }
  }

  lemma CutAllCons(line: string, ls: seq<string>, cap: Cap)
    ensures CutAll([line] + ls, cap) == CutLine(line, cap) + CutAll(ls, cap)
  {
    assert ([line] + ls)[1..] == ls;
  }

  lemma SteadyAfterCuts(open: string, more: string, cap: Cap, read: nat)
    requires Steady(|open + more|, cap, read)
    ensures Steady(|Remainder(open, cap) + more|, cap, read)
  {
    RemainderLength(open, cap);
    OverAdds(|open|, |more|, cap);
    OverIsRemainder(|open + more|, cap);
    OverIsRemainder(|Remainder(open, cap) + more|, cap);
  }

  lemma PrefixedSteady(open: string, t: Text, cap: Cap, read: nat)
    requires AllSteady(Prefixed(open, t).lines, cap, read)
    ensures AllSteady(Prefixed(Remainder(open, cap), t).lines, cap, read)
  {
    if t.lines != [] {
      var ls, ms := Prefixed(open, t).lines, Prefixed(Remainder(open, cap), t).lines;
      assert ls[0] == open + t.lines[0];
      SteadyAfterCuts(open, t.lines[0], cap, read);
      assert forall k :: 1 <= k < |ms| ==> ms[k] == ls[k];
    }
  }

  lemma {:induction false} LinesShorter(s: string, n: nat)
    requires n <= |s|
    ensures forall k :: 0 <= k < |ParseTo(s, n).lines| ==> |ParseTo(s, n).lines[k]| < n
  {
    if n > 0 {
      LinesShorter(s, n - 1);
      ParseToOpen(s, n - 1);
    }
  }

  /** The lines a read completes are below the cap: an overlong one would have been steady only if cut. */
  lemma CompletedShort(pending: string, chunk: string, cap: Cap, read: nat)
    requires |pending| < cap && NoNewline(pending) && |chunk| <= read <= cap
    requires AllSteady(Parse(pending + chunk).lines, cap, read)
    ensures AllShort(Parse(pending + chunk).lines, cap)
  {
    var ls := Parse(pending + chunk).lines;
    OpenPrefix(pending, chunk);
    LinesShorter(chunk, |chunk|);
    forall k | 0 <= k < |ls| ensures |ls[k]| < cap {
      if k == 0 {
        OverIsRemainder(|ls[0]|, cap);
        assert Steady(|ls[0]|, cap, read);
      } else {
        assert ls[k] == Parse(chunk).lines[k];
      }
    }
  }

  lemma SteadySplit(a: seq<string>, b: seq<string>, cap: Cap, read: nat)
    requires AllSteady(a + b, cap, read)
    ensures AllSteady(a, cap, read) && AllSteady(b, cap, read)
  {
    assert forall k :: 0 <= k < |a| ==> (a + b)[k] == a[k];
    forall k | 0 <= k < |b| ensures Steady(|b[k]|, cap, read) {
      assert (a + b)[|a| + k] == b[k];
    }
  }

  /** One read and then the rest give what the whole would. */
  lemma CanonicalAppend(pending: string, chunk: string, b: string, cap: Cap, read: nat)
    requires |pending| < cap && NoNewline(pending) && |chunk| <= read <= cap
    requires AllSteady(Parse(pending + chunk + b).lines, cap, read)
    ensures var a := pending + chunk;
            && AllSteady(Parse(Pending(a, cap) + b).lines, cap, read)
            && Canonical(Parse(a + b), cap) == Drain(a, cap) + Canonical(Parse(Pending(a, cap) + b), cap)
  {
    var a := pending + chunk;
    var t := Parse(a);
    var u := Parse(t.open + b);
    ParseAppend(a, b);
    ParseOpen(a);
    SteadySplit(t.lines, u.lines, cap, read);
    CompletedShort(pending, chunk, cap, read);
    CutAllShort(t.lines, cap);
    CutAllAppend(t.lines, u.lines, cap);
    OpenPrefix(t.open, b);
    RemainderOpen(t.open, cap);
    OpenPrefix(Remainder(t.open, cap), b);
    PrefixedSteady(t.open, Parse(b), cap, read);
    PrefixedCanonical(t.open, Parse(b), cap);
    var rest := Canonical(Parse(Pending(a, cap) + b), cap);
    Associative(CutAll(t.lines, cap), CutAll(u.lines, cap), Last(u.open, cap));
    Associative(StripAll(t.lines), Segments(t.open, cap), rest);
  }

  /** If every terminated line is steady, all sequences of reads within the bound emit the same. */
  lemma {:induction false} SteadyEmits(pending: string, chunks: seq<string>, k: nat, cap: Cap, read: nat)
    requires k <= |chunks| && |pending| < cap && NoNewline(pending)
    requires read <= cap && AllAtMost(chunks, read)
    requires AllSteady(Parse(pending + Concat(chunks, k)).lines, cap, read)
    ensures Emitted(pending, chunks, k, cap) == Canonical(Parse(pending + Concat(chunks, k)), cap)
    decreases |chunks| - k
  {
    if k == |chunks| {
      assert pending + Concat(chunks, k) == pending;
      OpenText(pending);
    } else {
      var a, b := pending + chunks[k], Concat(chunks, k + 1);
      assert pending + Concat(chunks, k) == a + b;
      CanonicalAppend(pending, chunks[k], b, cap, read);
      PendingOpen(a, cap);
      SteadyEmits(Pending(a, cap), chunks, k + 1, cap, read);
    }
  }

  // ---- Reads one after the other -------------------------------------------------------------------

  /** What is pending after the first `n` reads, and what they emitted. */
  function State(pending: string, chunks: seq<string>, n: nat, cap: Cap): string
    requires n <= |chunks|
  {
    if n == 0 then pending else Pending(State(pending, chunks, n - 1, cap) + chunks[n - 1], cap)
  }

  function Sent(pending: string, chunks: seq<string>, n: nat, cap: Cap): seq<string>
    requires n <= |chunks|
  {
    if n == 0 then []
    else Sent(pending, chunks, n - 1, cap) + Drain(State(pending, chunks, n - 1, cap) + chunks[n - 1], cap)
  }

  lemma {:induction false} EmittedSplit(pending: string, chunks: seq<string>, n: nat, cap: Cap)
    requires n <= |chunks|
    ensures Emitted(pending, chunks, 0, cap)
         == Sent(pending, chunks, n, cap) + Emitted(State(pending, chunks, n, cap), chunks, n, cap)
  {
    if n > 0 {
      EmittedSplit(pending, chunks, n - 1, cap);
      Associative(Sent(pending, chunks, n - 1, cap), Drain(State(pending, chunks, n - 1, cap) + chunks[n - 1], cap),
                  Emitted(State(pending, chunks, n, cap), chunks, n, cap));
    }
  }

  lemma {:induction false} SamePrefix(pending: string, a: seq<string>, b: seq<string>, n: nat, cap: Cap)
    requires n <= |a|
    ensures State(pending, a + b, n, cap) == State(pending, a, n, cap)
    ensures Sent(pending, a + b, n, cap) == Sent(pending, a, n, cap)
  {
    if n > 0 {
      SamePrefix(pending, a, b, n - 1, cap);
      assert (a + b)[n - 1] == a[n - 1];
    }
  }

  lemma {:induction false} SameSuffix(pending: string, whole: seq<string>, b: seq<string>, at: nat, k: nat, cap: Cap)
    requires |whole| == at + |b| && k <= |b|
    requires forall j :: 0 <= j < |b| ==> whole[at + j] == b[j]
    ensures Emitted(pending, whole, at + k, cap) == Emitted(pending, b, k, cap)
    decreases |b| - k
  {
    if k < |b| {
      var m := at + k;
      assert whole[m] == b[k];
      SameSuffix(Pending(pending + b[k], cap), whole, b, at, k + 1, cap);
      assert Emitted(pending, whole, m, cap)
          == Drain(pending + b[k], cap) + Emitted(Pending(pending + b[k], cap), whole, m + 1, cap);
    }
  }

  /** Reads `a` and then reads `b`. */
  lemma EmittedAppend(pending: string, a: seq<string>, b: seq<string>, cap: Cap)
    ensures Emitted(pending, a + b, 0, cap)
         == Sent(pending, a, |a|, cap) + Emitted(State(pending, a, |a|, cap), b, 0, cap)
  {
    EmittedSplit(pending, a + b, |a|, cap);
    SamePrefix(pending, a, b, |a|, cap);
    SameSuffix(State(pending, a, |a|, cap), a + b, b, |a|, 0, cap);
  }

  lemma {:induction false} ConcatSuffix(a: seq<string>, b: seq<string>, k: nat)
    requires k <= |b|
    ensures Concat(a + b, |a| + k) == Concat(b, k)
    decreases |b| - k
  {
    if k < |b| { ConcatSuffix(a, b, k + 1); }
  }

  lemma {:induction false} ConcatAppend(a: seq<string>, b: seq<string>, k: nat)
    requires k <= |a|
    ensures Concat(a + b, k) == Concat(a, k) + Concat(b, 0)
    decreases |a| - k
  {
    if k == |a| {
      ConcatSuffix(a, b, 0);
    } else {
      ConcatAppend(a, b, k + 1);
      Associative(a[k], Concat(a, k + 1), Concat(b, 0));
    }
  }

  // ---- One character at a time ---------------------------------------------------------------------

  function Singles(s: string): (r: seq<string>)
    ensures |r| == |s| && forall k :: 0 <= k < |s| ==> r[k] == [s[k]]
  {
    seq(|s|, k requires 0 <= k < |s| => [s[k]])
  }

  lemma {:induction false} SinglesConcat(s: string, k: nat)
    requires k <= |s|
    ensures Concat(Singles(s), k) == s[k..]
    decreases |s| - k
  {
    if k < |s| {
      SinglesConcat(s, k + 1);
      assert s[k..] == [s[k]] + s[k + 1..];
    }
  }

  /** One character that ends the pending line, fills it, or extends it. */
  lemma DrainOne(pending: string, c: char, cap: Cap)
    requires |pending| < cap && NoNewline(pending)
    ensures Parse(pending + [c]) == if c == NL then Text([pending], "") else Text([], pending + [c])
    ensures var text := pending + [c];
            && |Drain(text, cap)| == (if c == NL || |text| == cap then 1 else 0)
            && Pending(text, cap) == (if c == NL || |text| == cap then "" else text)
  {
    var text := pending + [c];
    OpenText(pending);
    ParseSnoc(pending, c);
    if c != NL && |text| == cap {
      assert text[cap..] == "" && Segments("", cap) == [] && Remainder("", cap) == "";
    }
  }

  /** The pending text follows the open line, character by character. */
  lemma OpenStep(open: string, c: char, cap: Cap)
    requires NoNewline(open)
    ensures Pending(Remainder(open, cap) + [c], cap) == Remainder(Extend(Text([], open), c).open, cap)
  {
    RemainderOpen(open, cap);
    DrainOne(Remainder(open, cap), c, cap);
    if c != NL { SegmentOne(open, c, cap); }
  }

  /** The pending text is what the open line leaves when its full segments are cut off. */
  lemma {:induction false} SinglesState(s: string, n: nat, cap: Cap)
    requires n <= |s|
    ensures State("", Singles(s), n, cap) == Remainder(ParseTo(s, n).open, cap)
  {
    if n > 0 {
      SinglesState(s, n - 1, cap);
      ParseToOpen(s, n - 1);
      OpenStep(ParseTo(s, n - 1).open, s[n - 1], cap);
    }
  }

  /** One more character on an open line. */
  lemma SegmentOne(open: string, c: char, cap: Cap)
    ensures var rem := Remainder(open, cap);
            && Remainder(open + [c], cap) == (if |rem| + 1 == cap then "" else rem + [c])
            && |Segments(open + [c], cap)| == |Segments(open, cap)| + if |rem| + 1 == cap then 1 else 0
  {
    var rem := Remainder(open, cap);
    SegmentsAppend(open, [c], cap);
    if |rem| + 1 == cap {
      assert (rem + [c])[cap..] == "" && Remainder("", cap) == "" && Segments("", cap) == [];
    }
  }

  /** Characters without a newline, one at a time, behind `p`: one emission a full segment. */
  lemma {:induction false} SinglesOpen(p: string, z: string, n: nat, cap: Cap)
    requires n <= |z| && |p| < cap && NoNewline(p) && NoNewline(z)
    ensures State(p, Singles(z), n, cap) == Remainder(p + z[..n], cap)
    ensures |Sent(p, Singles(z), n, cap)| == |Segments(p + z[..n], cap)|
  {
    if n == 0 {
      assert p + z[..0] == p;
    } else {
      var open, c := p + z[..n - 1], z[n - 1];
      SinglesOpen(p, z, n - 1, cap);
      assert p + z[..n] == open + [c];
      RemainderOpen(open, cap);
      DrainOne(Remainder(open, cap), c, cap);
      SegmentOne(open, c, cap);
    }
  }

  // ---- An unsteady line ---------------------------------------------------------------------------

  /** A text is some whole lines and its open line. */
  lemma {:induction false} OpenAt(s: string) returns (head: string)
    ensures s == head + Parse(s).open && Parse(head).open == ""
  {
    if s == "" {
      head := "";
    } else {
      var front, c := s[..|s| - 1], s[|s| - 1];
      assert s == front + [c];
      ParseSnoc(front, c);
      if c == NL {
        head := s;
      } else {
        head := OpenAt(front);
      }
    }
  }

  /** Where terminated line `m` stands in the text. */
  lemma {:induction false} LineAt(s: string, m: nat) returns (head: string, after: string)
    requires m < |Parse(s).lines|
    ensures s == head + Parse(s).lines[m] + [NL] + after && Parse(head).open == "" && NoNewline(Parse(s).lines[m])
  {
    var front, c := s[..|s| - 1], s[|s| - 1];
    assert s == front + [c];
    ParseSnoc(front, c);
    if m < |Parse(front).lines| {
      head, after := LineAt(front, m);
      after := after + [c];
    } else {
      head := OpenAt(front);
      after := "";
      ParseOpen(front);
    }
  }

  /** The end of an unsteady line, newline included, in one read or in single characters. */
  lemma EndsDiffer(p: string, z: string, after: seq<string>, cap: Cap)
    requires |p| < cap && NoNewline(p) && NoNewline(z) && |p + z| >= cap
    ensures |Emitted(p, [z + [NL]] + after, 0, cap)| < |Emitted(p, Singles(z) + [[NL]] + after, 0, cap)|
  {
    var rem := Remainder(p + z, cap);
    EmittedAppend(p, [z + [NL]], after, cap);
    WholeEnd(p, z, cap);
    var singles := Singles(z) + [[NL]];
    EmittedAppend(p, singles, after, cap);
    SamePrefix(p, Singles(z), [[NL]], |z|, cap);
    SinglesOpen(p, z, |z|, cap);
    assert z[..|z|] == z && singles[|z|] == [NL];
    assert NoNewline(p + z);
    RemainderOpen(p + z, cap);
    DrainOne(rem, NL, cap);
  }

  lemma WholeEnd(p: string, z: string, cap: Cap)
    requires NoNewline(p) && NoNewline(z)
    ensures |Sent(p, [z + [NL]], 1, cap)| == 1 && State(p, [z + [NL]], 1, cap) == ""
  {
    var text := p + (z + [NL]);
    assert text == (p + z) + [NL] && NoNewline(p + z);
    OpenText(p + z);
    ParseSnoc(p + z, NL);
    assert Segments("", cap) == [] && Remainder("", cap) == "";
    assert Sent(p, [z + [NL]], 0, cap) == [] && State(p, [z + [NL]], 0, cap) == p;
    assert Drain(text, cap) == StripAll([p + z]) + [];
  }

  /** How a stream may arrive: non-empty reads of at most `read` characters that concatenate to it. */
  ghost predicate Chunking(chunks: seq<string>, s: string, read: nat) {
    Concat(chunks, 0) == s && AllAtMost(chunks, read) && forall k :: 0 <= k < |chunks| ==> chunks[k] != ""
  }

  ghost predicate ChunkingIrrelevant(s: string, cap: Cap, read: nat) {
    forall a, b :: Chunking(a, s, read) && Chunking(b, s, read) ==> Emitted("", a, 0, cap) == Emitted("", b, 0, cap)
  }

  lemma SinglesChunking(s: string, read: nat)
    requires read >= 1
    ensures Chunking(Singles(s), s, read)
  {
    SinglesConcat(s, 0);
    assert s[0..] == s;
  }

  lemma ChunkingAppend(a: seq<string>, s: string, b: seq<string>, t: string, read: nat)
    requires Chunking(a, s, read) && Chunking(b, t, read)
    ensures Chunking(a + b, s + t, read)
  {
    ConcatAppend(a, b, 0);
  }

  lemma OneChunk(s: string, read: nat)
    requires s != "" && |s| <= read
    ensures Chunking([s], s, read)
  {
    assert Concat([s], 0) == s + Concat([s], 1) == s;
  }

  /** The two ways in which a stream with an unsteady line arrives. */
  lemma TwoWays(before: string, z: string, after: string, read: nat) returns (a: seq<string>, b: seq<string>)
    requires |z| + 1 == read
    ensures a == Singles(before) + ([z + [NL]] + Singles(after))
    ensures b == Singles(before) + (Singles(z) + [[NL]] + Singles(after))
    ensures var s := before + (z + [NL] + after); Chunking(a, s, read) && Chunking(b, s, read)
  {
    a := Singles(before) + ([z + [NL]] + Singles(after));
    b := Singles(before) + (Singles(z) + [[NL]] + Singles(after));
    SinglesChunking(before, read);
    SinglesChunking(z, read);
    SinglesChunking(after, read);
    OneChunk(z + [NL], read);
    OneChunk([NL], read);
    ChunkingAppend([z + [NL]], z + [NL], Singles(after), after, read);
    ChunkingAppend(Singles(before), before, [z + [NL]] + Singles(after), z + [NL] + after, read);
    ChunkingAppend(Singles(z), z, [[NL]], [NL], read);
    ChunkingAppend(Singles(z) + [[NL]], z + [NL], Singles(after), after, read);
    ChunkingAppend(Singles(before), before, Singles(z) + [[NL]] + Singles(after), z + [NL] + after, read);
  }

  /** After the start of an unsteady line, so much is pending that its end reaches the cap. */
  lemma UnsteadyEnd(head: string, line: string, cap: Cap, read: nat) returns (y: string, z: string)
    requires Parse(head).open == "" && NoNewline(line)
    requires 1 <= read <= cap && !Steady(|line|, cap, read)
    ensures line == y + z && |z| + 1 == read && NoNewline(z)
    ensures var p := State("", Singles(head + y), |head + y|, cap);
            |p| < cap && NoNewline(p) && |p + z| >= cap
  {
    UnsteadyLength(|line|, cap, read);
    var d := |line| - (read - 1);
    y, z := line[..d], line[d..];
    StateBehind(head, y, cap);
    RemainderOpen(y, cap);
    RemainderLength(y, cap);
  }

  lemma UnsteadyLength(n: nat, cap: Cap, read: nat)
    requires 1 <= read <= cap && !Steady(n, cap, read)
    ensures n >= cap && Over(n - (read - 1), cap) + (read - 1) >= cap
  {
    OverIsRemainder(n, cap);
    OverBack(n, read - 1, cap);
  }

  lemma StateBehind(head: string, y: string, cap: Cap)
    requires Parse(head).open == "" && NoNewline(y)
    ensures State("", Singles(head + y), |head + y|, cap) == Remainder(y, cap)
  {
    SinglesState(head + y, |head + y|, cap);
    ParseAppend(head, y);
    assert "" + y == y;
    OpenText(y);
  }

  lemma UnsteadyMatters(s: string, m: nat, cap: Cap, read: nat)
    requires 1 <= read <= cap && m < |Parse(s).lines| && !Steady(|Parse(s).lines[m]|, cap, read)
    ensures !ChunkingIrrelevant(s, cap, read)
  {
    var line := Parse(s).lines[m];
    var head, after := LineAt(s, m);
    var y, z := UnsteadyEnd(head, line, cap, read);
    var before := head + y;
    var p := State("", Singles(before), |before|, cap);
    var a, b := TwoWays(before, z, after, read);
    assert s == before + (z + [NL] + after);
    EmittedAppend("", Singles(before), [z + [NL]] + Singles(after), cap);
    EmittedAppend("", Singles(before), Singles(z) + [[NL]] + Singles(after), cap);
    EndsDiffer(p, z, Singles(after), cap);
    assert |Emitted("", a, 0, cap)| != |Emitted("", b, 0, cap)|;
  }

  /** With reads of at most `read` characters, the way a stream is cut into reads does not matter exactly
      when every newline-terminated line is shorter than the cap or exceeds a multiple of it by at
      least `read` - 1. */
  lemma ChunkingIrrelevantIff(s: string, cap: Cap, read: nat)
    requires 1 <= read <= cap
    ensures ChunkingIrrelevant(s, cap, read) <==> AllSteady(Parse(s).lines, cap, read)
  {
    if AllSteady(Parse(s).lines, cap, read) {
      assert "" + s == s;
      forall a, b | Chunking(a, s, read) && Chunking(b, s, read)
        ensures Emitted("", a, 0, cap) == Emitted("", b, 0, cap)
      {
        SteadyEmits("", a, 0, cap, read);
        SteadyEmits("", b, 0, cap, read);
      }
    } else {
      var m :| 0 <= m < |Parse(s).lines| && !Steady(|Parse(s).lines[m]|, cap, read);
      UnsteadyMatters(s, m, cap, read);
    }
  }
}
