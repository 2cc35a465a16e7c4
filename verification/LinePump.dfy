/** Draining a child's output in chunks (`app/security/runner.py`, `_pump` and `_emit_one`). */
module LinePump {

  /** A line cap: at least one character. */
  type Cap = n: nat | n > 0 witness 1

  const CR := '\r'
  const NL := '\n'

  // ---- Text -----------------------------------------------------------------------------------

  /** The position of the first newline, or the length. */
  function FindNewline(s: string): (i: nat)
    ensures i <= |s| && NoNewline(s[..i]) && (i < |s| ==> s[i] == NL)
  {
    if s == "" || s[0] == NL then 0
    else
      var i := FindNewline(s[1..]);
      assert s[..i + 1] == [s[0]] + s[1..][..i];
      i + 1
  }

  /** A text as its newline-terminated lines and the open line behind the last newline. */
  datatype Text = Text(lines: seq<string>, open: string)

  function Extend(t: Text, c: char): Text {
    if c == NL then Text(t.lines + [t.open], "") else Text(t.lines, t.open + [c])
  }

  function ParseTo(s: string, n: nat): Text
    requires n <= |s|
  {
    if n == 0 then Text([], "") else Extend(ParseTo(s, n - 1), s[n - 1])
  }

  function Parse(s: string): Text { ParseTo(s, |s|) }

  function StripCr(s: string): string {
    if s != "" && s[|s| - 1] == CR then StripCr(s[..|s| - 1]) else s
  }

  function StripAll(ls: seq<string>): (r: seq<string>)
    ensures |r| == |ls| && forall k :: 0 <= k < |r| ==> r[k] == StripCr(ls[k])
  {
    seq(|ls|, k requires 0 <= k < |ls| => StripCr(ls[k]))
  }

  /** The full segments of an overlong open line, and what is left of it. */
  function Segments(s: string, cap: Cap): seq<string>
  {
    if |s| < cap then [] else [s[..cap]] + Segments(s[cap..], cap)
  }

  function Remainder(s: string, cap: Cap): (r: string)
    ensures |r| < cap
  {
    if |s| < cap then s else Remainder(s[cap..], cap)
  }

  function Flush(pending: string): seq<string> {
    if pending == "" then [] else [StripCr(pending)]
  }

  /** The reads from number `k` on, joined. */
  function Concat(chunks: seq<string>, k: nat): string
    requires k <= |chunks|
    decreases |chunks| - k
  {
    if k == |chunks| then "" else chunks[k] + Concat(chunks, k + 1)
  }

  // ---- The pump -------------------------------------------------------------------------------

  /** What one read emits, and what stays pending. */
  function Drain(text: string, cap: Cap): seq<string>
  {
    StripAll(Parse(text).lines) + Segments(Parse(text).open, cap)
  }

  function Pending(text: string, cap: Cap): (r: string)
    ensures |r| < cap
  {
    Remainder(Parse(text).open, cap)
  }

  /** What is emitted from read `k` on. */
  function Emitted(pending: string, chunks: seq<string>, k: nat, cap: Cap): seq<string>
    requires k <= |chunks|
    decreases |chunks| - k
  {
    if k == |chunks| then Flush(pending)
    else Drain(pending + chunks[k], cap) + Emitted(Pending(pending + chunks[k], cap), chunks, k + 1, cap)
  }

  lemma Associative<T>(a: seq<T>, b: seq<T>, c: seq<T>)
    ensures (a + b) + c == a + (b + c)
  {}

  /** Characters charged for captured lines, one more than each line's length. */
  function Charge(ls: seq<string>): nat {
    if ls == [] then 0 else Charge(ls[..|ls| - 1]) + |ls[|ls| - 1]| + 1
  }

  /** The lines kept: each is taken while the charge so far is below the bound. */
  function Captured(ls: seq<string>, bound: nat): seq<string> {
    if ls == [] then []
    else
      var kept := Captured(ls[..|ls| - 1], bound);
      if Charge(kept) < bound then kept + [ls[|ls| - 1]] else kept
  }

  lemma CapturedSnoc(ls: seq<string>, line: string, bound: nat)
    ensures Captured(ls + [line], bound)
         == if Charge(Captured(ls, bound)) < bound then Captured(ls, bound) + [line] else Captured(ls, bound)
    ensures Charge(ls + [line]) == Charge(ls) + |line| + 1
  {
    assert (ls + [line])[..|ls|] == ls;
  }

  /** What the drain has sent to the callback, what it keeps, and the running charge. */
  class Sink {
    const bound: nat
    var sent: seq<string>
    var captured: seq<string>
    var capChars: nat

    ghost predicate Valid()
      reads this
    {
      captured == Captured(sent, bound) && capChars == Charge(captured)
    }

    constructor (bound: nat)
      ensures Valid() && sent == [] && this.bound == bound
    {
      this.bound := bound;
      sent, captured, capChars := [], [], 0;
    }

    method EmitOne(line: string)
      requires Valid()
      modifies this
      ensures Valid() && sent == old(sent) + [line]
    {
      CapturedSnoc(sent, line, bound);
      CapturedSnoc(captured, line, bound);
      if capChars < bound {
        captured := captured + [line];
        capChars := capChars + |line| + 1;
      }
      sent := sent + [line];
    }

    /** Flushes every complete line of `text`. */
    method FlushLines(text: string) returns (pending: string)
      requires Valid()
      modifies this
      ensures Valid() && sent == old(sent) + StripAll(Parse(text).lines) && pending == Parse(text).open
    {
      pending := text;
      while FindNewline(pending) < |pending|
        invariant Valid()
        invariant sent + StripAll(Parse(pending).lines) == old(sent) + StripAll(Parse(text).lines)
        invariant Parse(pending).open == Parse(text).open
        decreases |pending|
      {
        var i := FindNewline(pending);
        var line := pending[..i];
        assert pending == line + [NL] + pending[i + 1..];
        FirstLine(line, pending[i + 1..]);
        Associative(sent, [StripCr(line)], StripAll(Parse(pending[i + 1..]).lines));
        EmitOne(StripCr(line));
        pending := pending[i + 1..];
      }
      assert pending[..FindNewline(pending)] == pending;
      OpenText(pending);
    }

    /** Flushes an overlong open line in segments. */
    method FlushSegments(text: string, cap: Cap) returns (pending: string)
      requires Valid()
      modifies this
      ensures Valid() && sent == old(sent) + Segments(text, cap) && pending == Remainder(text, cap)
    {
      pending := text;
      while |pending| >= cap
        invariant Valid()
        invariant sent + Segments(pending, cap) == old(sent) + Segments(text, cap)
        invariant Remainder(pending, cap) == Remainder(text, cap)
        decreases |pending|
      {
        Associative(sent, [pending[..cap]], Segments(pending[cap..], cap));
        EmitOne(pending[..cap]);
        pending := pending[cap..];
      }
    }

    method Pump(chunks: seq<string>, cap: Cap)
      requires Valid()
      modifies this
      ensures Valid() && sent == old(sent) + Emitted("", chunks, 0, cap)
    {
      var pending := "";
      for k := 0 to |chunks|
        invariant Valid() && |pending| < cap && NoNewline(pending)
        invariant sent + Emitted(pending, chunks, k, cap) == old(sent) + Emitted("", chunks, 0, cap)
      {
        PendingOpen(pending + chunks[k], cap);
        Associative(sent, Drain(pending + chunks[k], cap),
                    Emitted(Pending(pending + chunks[k], cap), chunks, k + 1, cap));
        pending := DrainChunk(pending + chunks[k], cap);
      }
      if pending != "" {
        EmitOne(StripCr(pending));
      }
    }

    /** One read's worth: complete lines first, then segments of an overlong open line. */
    method DrainChunk(text: string, cap: Cap) returns (pending: string)
      requires Valid()
      modifies this
      ensures Valid() && sent == old(sent) + Drain(text, cap) && pending == Pending(text, cap)
    {
      Associative(sent, StripAll(Parse(text).lines), Segments(Parse(text).open, cap));
      pending := FlushLines(text);
      pending := FlushSegments(pending, cap);
    }
  }

  // ---- Splitting text in two ----------------------------------------------------------------------

  predicate NoNewline(s: string) { NL !in s }

  lemma {:induction false} ParseToOpen(s: string, n: nat)
    requires n <= |s|
    ensures NoNewline(ParseTo(s, n).open) && |ParseTo(s, n).open| <= n
  {
    if n > 0 { ParseToOpen(s, n - 1); }
  }

  lemma ParseOpen(s: string)
    ensures NoNewline(Parse(s).open) && |Parse(s).open| <= |s|
  {
    ParseToOpen(s, |s|);
  }

  lemma {:induction false} RemainderOpen(s: string, cap: Cap)
    requires NoNewline(s)
    ensures NoNewline(Remainder(s, cap))
  {
    if |s| >= cap { RemainderOpen(s[cap..], cap); }
  }

  /** What stays pending after a read is below the cap and has no newline. */
  lemma PendingOpen(text: string, cap: Cap)
    ensures |Pending(text, cap)| < cap && NoNewline(Pending(text, cap))
  {
    ParseOpen(text);
    RemainderOpen(Parse(text).open, cap);
  }

  lemma {:induction false} ParsePrefix(s: string, t: string, n: nat)
    requires n <= |s| && s <= t
    ensures ParseTo(t, n) == ParseTo(s, n)
  {
    if n > 0 { ParsePrefix(s, t, n - 1); }
  }

  lemma ParseSnoc(s: string, c: char)
    ensures Parse(s + [c]) == Extend(Parse(s), c)
  {
    ParsePrefix(s, s + [c], |s|);
  }

  lemma {:induction false} OpenTextTo(s: string, n: nat)
    requires NoNewline(s) && n <= |s|
    ensures ParseTo(s, n) == Text([], s[..n])
  {
    if n > 0 {
      OpenTextTo(s, n - 1);
      assert s[..n] == s[..n - 1] + [s[n - 1]];
    }
  }

  lemma OpenText(s: string)
    requires NoNewline(s)
    ensures Parse(s) == Text([], s)
  {
    OpenTextTo(s, |s|);
    assert s[..|s|] == s;
  }

  function Behind(t: Text, u: Text): Text { Text(t.lines + u.lines, u.open) }

  /** Reading `a` first leaves its open line in front of `b`. */
  lemma {:induction false} ParseAppend(a: string, b: string)
    ensures Parse(a + b) == Behind(Parse(a), Parse(Parse(a).open + b))
    decreases |b|
  {
    var open := Parse(a).open;
    if b == "" {
      assert a + b == a && open + b == open;
      ParseOpen(a);
      OpenText(open);
    } else {
      var front, c := b[..|b| - 1], b[|b| - 1];
      assert a + b == (a + front) + [c] && open + b == (open + front) + [c];
      ParseSnoc(a + front, c);
      ParseSnoc(open + front, c);
      ParseAppend(a, front);
    }
  }

  /** `open` in front of a text joins its first line, or its open line. */
  function Prefixed(open: string, t: Text): Text {
    if t.lines == [] then Text([], open + t.open) else Text([open + t.lines[0]] + t.lines[1..], t.open)
  }

  lemma {:induction false} OpenPrefix(open: string, s: string)
    requires NoNewline(open)
    ensures Parse(open + s) == Prefixed(open, Parse(s))
    decreases |s|
  {
    if s == "" {
      assert open + s == open;
      OpenText(open);
    } else {
      var front, c := s[..|s| - 1], s[|s| - 1];
      assert s == front + [c] && open + s == (open + front) + [c];
      ParseSnoc(front, c);
      ParseSnoc(open + front, c);
      OpenPrefix(open, front);
    }
  }

  lemma ParseAfterLine(line: string, rest: string)
    requires NoNewline(line)
    ensures Parse(line + [NL] + rest) == Behind(Text([line], ""), Parse(rest))
  {
    ParseSnoc(line, NL);
    OpenText(line);
    ParseAppend(line + [NL], rest);
    assert "" + rest == rest;
  }

  lemma StripAllAppend(a: seq<string>, b: seq<string>)
    ensures StripAll(a + b) == StripAll(a) + StripAll(b)
  {}

  /** Splitting off the first line. */
  lemma FirstLine(line: string, rest: string)
    requires NoNewline(line)
    ensures Parse(line + [NL] + rest).open == Parse(rest).open
    ensures StripAll(Parse(line + [NL] + rest).lines) == [StripCr(line)] + StripAll(Parse(rest).lines)
  {
    ParseAfterLine(line, rest);
    StripAllAppend([line], Parse(rest).lines);
  }

  lemma {:induction false} SegmentsAppend(a: string, b: string, cap: Cap)
    ensures Segments(a + b, cap) == Segments(a, cap) + Segments(Remainder(a, cap) + b, cap)
    ensures Remainder(a + b, cap) == Remainder(Remainder(a, cap) + b, cap)
    decreases |a|
  {
    if |a| >= cap {
      assert (a + b)[..cap] == a[..cap] && (a + b)[cap..] == a[cap..] + b;
      SegmentsAppend(a[cap..], b, cap);
    }
  }

  // ---- Chunking does not matter ---------------------------------------------------------------------

  predicate AllShort(ls: seq<string>, cap: Cap) {
    forall k :: 0 <= k < |ls| ==> |ls[k]| < cap
  }

  /** The open line at the end, cut only if it is overlong. */
  function Last(open: string, cap: Cap): seq<string>
  {
    Segments(open, cap) + Flush(Remainder(open, cap))
  }

  /** What a text should give: its terminated lines without trailing CRs, then its open line. */
  function Expected(t: Text, cap: Cap): seq<string>
  {
    StripAll(t.lines) + Last(t.open, cap)
  }

  lemma ExpectedBehind(t: Text, u: Text, cap: Cap)
    ensures Expected(Behind(t, u), cap) == StripAll(t.lines) + Expected(u, cap)
  {
    assert StripAll(t.lines + u.lines) == StripAll(t.lines) + StripAll(u.lines);
  }

  lemma AllShortSuffix(a: seq<string>, b: seq<string>, cap: Cap)
    requires AllShort(a + b, cap)
    ensures AllShort(b, cap)
  {
    forall k | 0 <= k < |b| ensures |b[k]| < cap {
      assert (a + b)[|a| + k] == b[k];
    }
  }

  /** A long open line that is terminated later becomes a long terminated line. */
  lemma LongLine(open: string, b: string, cap: Cap)
    requires NoNewline(open) && |open| >= cap && Parse(b).lines != []
    ensures !AllShort(Parse(open + b).lines, cap)
  {
    OpenPrefix(open, b);
    assert |Parse(open + b).lines[0]| >= cap;
  }

  /** An open line followed by text: cutting its segments first changes nothing. */
  lemma OpenAppend(open: string, b: string, cap: Cap)
    requires NoNewline(open) && AllShort(Parse(open + b).lines, cap)
    ensures AllShort(Parse(Remainder(open, cap) + b).lines, cap)
    ensures Expected(Parse(open + b), cap) == Segments(open, cap) + Expected(Parse(Remainder(open, cap) + b), cap)
  {
    if |open| >= cap {
      var u := Parse(b);
      if u.lines != [] { LongLine(open, b, cap); }
      RemainderOpen(open, cap);
      OpenPrefixes(open, Remainder(open, cap), b);
      LastAppend(open, u.open, cap);
    }
  }

  /** Two open lines in front of a text that terminates neither. */
  lemma OpenPrefixes(a: string, b: string, s: string)
    requires NoNewline(a) && NoNewline(b) && Parse(s).lines == []
    ensures Parse(a + s) == Text([], a + Parse(s).open) && Parse(b + s) == Text([], b + Parse(s).open)
  {
    OpenPrefix(a, s);
    OpenPrefix(b, s);
  }

  lemma LastAppend(open: string, more: string, cap: Cap)
    ensures Last(open + more, cap) == Segments(open, cap) + Last(Remainder(open, cap) + more, cap)
  {
    SegmentsAppend(open, more, cap);
  }

  /** One read and then the rest give what the whole would. */
  lemma ExpectedAppend(a: string, b: string, cap: Cap)
    requires AllShort(Parse(a + b).lines, cap)
    ensures AllShort(Parse(Pending(a, cap) + b).lines, cap)
    ensures Expected(Parse(a + b), cap) == Drain(a, cap) + Expected(Parse(Pending(a, cap) + b), cap)
  {
    var t := Parse(a);
    var u := Parse(t.open + b);
    ParseAppend(a, b);
    AllShortSuffix(t.lines, u.lines, cap);
    ExpectedBehind(t, u, cap);
    ParseOpen(a);
    OpenAppend(t.open, b, cap);
    Associative(StripAll(t.lines), Segments(t.open, cap), Expected(Parse(Pending(a, cap) + b), cap));
  }

  /** If every terminated line is shorter than the cap, every chunking emits the expected lines. */
  lemma {:induction false} ShortLinesSplit(pending: string, chunks: seq<string>, k: nat, cap: Cap)
    requires k <= |chunks| && |pending| < cap && NoNewline(pending)
    requires AllShort(Parse(pending + Concat(chunks, k)).lines, cap)
    ensures Emitted(pending, chunks, k, cap) == Expected(Parse(pending + Concat(chunks, k)), cap)
    decreases |chunks| - k
  {
    if k == |chunks| {
      assert pending + Concat(chunks, k) == pending;
      OpenText(pending);
    } else {
      var a, b := pending + chunks[k], Concat(chunks, k + 1);
      assert pending + Concat(chunks, k) == a + b;
      ExpectedAppend(a, b, cap);
      PendingOpen(a, cap);
      ShortLinesSplit(Pending(a, cap), chunks, k + 1, cap);
    }
  }

  /** And when the open line is short too, that is the stream split on newlines. */
  lemma WholeSplit(chunks: seq<string>, cap: Cap)
    requires AllShort(Parse(Concat(chunks, 0)).lines, cap) && |Parse(Concat(chunks, 0)).open| < cap
    ensures var t := Parse(Concat(chunks, 0));
            Emitted("", chunks, 0, cap) == StripAll(t.lines) + Flush(t.open)
  {
    assert "" + Concat(chunks, 0) == Concat(chunks, 0);
    ShortLinesSplit("", chunks, 0, cap);
  }

  // ---- Nothing is lost --------------------------------------------------------------------------------

  function Visible(c: char): string { if c == CR || c == NL then "" else [c] }

  function ContentTo(s: string, n: nat): string
    requires n <= |s|
  {
    if n == 0 then "" else ContentTo(s, n - 1) + Visible(s[n - 1])
  }

  /** The characters of a text other than CR and newline. */
  function Content(s: string): string { ContentTo(s, |s|) }

  function ContentAllTo(ls: seq<string>, n: nat): string
    requires n <= |ls|
  {
    if n == 0 then "" else ContentAllTo(ls, n - 1) + Content(ls[n - 1])
  }

  function ContentAll(ls: seq<string>): string { ContentAllTo(ls, |ls|) }

  lemma {:induction false} ContentPrefix(s: string, t: string, n: nat)
    requires n <= |s| && s <= t
    ensures ContentTo(t, n) == ContentTo(s, n)
  {
    if n > 0 { ContentPrefix(s, t, n - 1); }
  }

  lemma ContentSnoc(s: string, c: char)
    ensures Content(s + [c]) == Content(s) + Visible(c)
  {
    ContentPrefix(s, s + [c], |s|);
  }

  lemma {:induction false} ContentAppend(a: string, b: string)
    ensures Content(a + b) == Content(a) + Content(b)
    decreases |b|
  {
    if b == "" {
      assert a + b == a;
    } else {
      var front, c := b[..|b| - 1], b[|b| - 1];
      assert b == front + [c] && a + b == (a + front) + [c];
      ContentAppend(a, front);
      ContentSnoc(front, c);
      ContentSnoc(a + front, c);
      Associative(Content(a), Content(front), Visible(c));
    }
  }

  lemma {:induction false} ContentAllPrefix(s: seq<string>, t: seq<string>, n: nat)
    requires n <= |s| && s <= t
    ensures ContentAllTo(t, n) == ContentAllTo(s, n)
  {
    if n > 0 { ContentAllPrefix(s, t, n - 1); }
  }

  lemma ContentAllSnoc(ls: seq<string>, line: string)
    ensures ContentAll(ls + [line]) == ContentAll(ls) + Content(line)
  {
    ContentAllPrefix(ls, ls + [line], |ls|);
  }

  lemma {:induction false} ContentAllAppend(a: seq<string>, b: seq<string>)
    ensures ContentAll(a + b) == ContentAll(a) + ContentAll(b)
    decreases |b|
  {
    if b == [] {
      assert a + b == a;
    } else {
      var front, last := b[..|b| - 1], b[|b| - 1];
      assert b == front + [last] && a + b == (a + front) + [last];
      ContentAllAppend(a, front);
      ContentAllSnoc(front, last);
      ContentAllSnoc(a + front, last);
      Associative(ContentAll(a), ContentAll(front), Content(last));
    }
  }

  lemma ContentAllOne(line: string)
    ensures ContentAll([line]) == Content(line)
  {
    assert ContentAllTo([line], 1) == ContentAllTo([line], 0) + Content([line][0]);
  }

  lemma {:induction false} StripKeepsContent(s: string)
    ensures Content(StripCr(s)) == Content(s)
  {
    if s != "" && s[|s| - 1] == CR {
      var front := s[..|s| - 1];
      StripKeepsContent(front);
      ContentPrefix(front, s, |front|);
    }
  }

  lemma {:induction false} SameContent(ls: seq<string>, ms: seq<string>, n: nat)
    requires n <= |ls| && |ls| == |ms|
    requires forall k :: 0 <= k < n ==> Content(ls[k]) == Content(ms[k])
    ensures ContentAllTo(ls, n) == ContentAllTo(ms, n)
  {
    if n > 0 { SameContent(ls, ms, n - 1); }
  }

  lemma StripAllKeepsContent(ls: seq<string>)
    ensures ContentAll(StripAll(ls)) == ContentAll(ls)
  {
    forall k | 0 <= k < |ls| ensures Content(StripAll(ls)[k]) == Content(ls[k]) {
      StripKeepsContent(ls[k]);
    }
    SameContent(StripAll(ls), ls, |ls|);
  }

  lemma {:induction false} ParseKeepsContent(s: string, n: nat)
    requires n <= |s|
    ensures ContentAll(ParseTo(s, n).lines) + Content(ParseTo(s, n).open) == ContentTo(s, n)
  {
    if n > 0 {
      var t, c := ParseTo(s, n - 1), s[n - 1];
      ParseKeepsContent(s, n - 1);
      if c == NL {
        ContentAllSnoc(t.lines, t.open);
        assert Content("") == "" && Visible(c) == "";
      } else {
        ContentSnoc(t.open, c);
        Associative(ContentAll(t.lines), Content(t.open), Visible(c));
      }
    }
  }

  lemma {:induction false} SegmentsKeepContent(s: string, cap: Cap)
    ensures ContentAll(Segments(s, cap)) + Content(Remainder(s, cap)) == Content(s)
    decreases |s|
  {
    if |s| >= cap {
      SegmentsKeepContent(s[cap..], cap);
      assert s == s[..cap] + s[cap..];
      ContentAppend(s[..cap], s[cap..]);
      ContentAllAppend([s[..cap]], Segments(s[cap..], cap));
      ContentAllOne(s[..cap]);
    }
  }

  lemma DrainKeepsContent(text: string, cap: Cap)
    ensures ContentAll(Drain(text, cap)) + Content(Pending(text, cap)) == Content(text)
  {
    var t := Parse(text);
    ParseKeepsContent(text, |text|);
    StripAllKeepsContent(t.lines);
    SegmentsKeepContent(t.open, cap);
    ContentAllAppend(StripAll(t.lines), Segments(t.open, cap));
    Associative(ContentAll(t.lines), ContentAll(Segments(t.open, cap)), Content(Pending(text, cap)));
  }

  /** For every stream and every chunking, overlong lines included, the emitted lines carry the
      characters of the stream in order, CRs and newlines aside. */
  lemma {:induction false} NothingLost(pending: string, chunks: seq<string>, k: nat, cap: Cap)
    requires k <= |chunks|
    ensures ContentAll(Emitted(pending, chunks, k, cap)) == Content(pending + Concat(chunks, k))
    decreases |chunks| - k
  {
    if k == |chunks| {
      assert pending + Concat(chunks, k) == pending;
      StripKeepsContent(pending);
      ContentAllOne(StripCr(pending));
    } else {
      var text, rest := pending + chunks[k], Concat(chunks, k + 1);
      var open := Pending(text, cap);
      Associative(pending, chunks[k], rest);
      ContentAppend(text, rest);
      DrainKeepsContent(text, cap);
      NothingLost(open, chunks, k + 1, cap);
      ContentAppend(open, rest);
      ContentAllAppend(Drain(text, cap), Emitted(open, chunks, k + 1, cap));
      Associative(ContentAll(Drain(text, cap)), Content(open), Content(rest));
    }
  }

  // ---- Bounded memory ---------------------------------------------------------------------------------

  predicate AllAtMost(ls: seq<string>, n: nat) {
    forall k :: 0 <= k < |ls| ==> |ls[k]| <= n
  }

  /** The captured lines are the first ones emitted: all of them, or as many as it takes to reach the
      bound, and they overshoot it by less than one line. */
  lemma {:induction false} CapturedIsBoundedHead(ls: seq<string>, bound: nat, n: nat)
    requires bound > 0 && AllAtMost(ls, n)
    ensures Captured(ls, bound) <= ls
    ensures Captured(ls, bound) == ls || Charge(Captured(ls, bound)) >= bound
    ensures Charge(Captured(ls, bound)) <= bound + n
  {
    if ls != [] {
      var front, last := ls[..|ls| - 1], ls[|ls| - 1];
      CapturedIsBoundedHead(front, bound, n);
      assert ls == front + [last];
      CapturedSnoc(front, last, bound);
      CapturedSnoc(Captured(front, bound), last, bound);
      assert |last| <= n;
    }
  }

  lemma {:induction false} StripShortens(s: string)
    ensures |StripCr(s)| <= |s|
  {
    if s != "" && s[|s| - 1] == CR { StripShortens(s[..|s| - 1]); }
  }

  lemma {:induction false} LinesAtMost(s: string, n: nat)
    requires n <= |s|
    ensures AllAtMost(ParseTo(s, n).lines, n)
  {
    if n > 0 {
      LinesAtMost(s, n - 1);
      ParseToOpen(s, n - 1);
    }
  }

  lemma {:induction false} SegmentsAtMost(s: string, cap: Cap)
    ensures AllAtMost(Segments(s, cap), cap)
    decreases |s|
  {
    if |s| >= cap { SegmentsAtMost(s[cap..], cap); }
  }

  /** With reads of at most `read` characters no emitted line is longer than the cap and one read. */
  lemma {:induction false} EmittedAtMost(pending: string, chunks: seq<string>, k: nat, cap: Cap, read: nat)
    requires k <= |chunks| && |pending| < cap && AllAtMost(chunks, read)
    ensures AllAtMost(Emitted(pending, chunks, k, cap), cap + read)
    decreases |chunks| - k
  {
    if k == |chunks| {
      StripShortens(pending);
    } else {
      var text := pending + chunks[k];
      DrainAtMost(text, cap, cap + read);
      EmittedAtMost(Pending(text, cap), chunks, k + 1, cap, read);
    }
  }

  lemma DrainAtMost(text: string, cap: Cap, n: nat)
    requires |text| <= n && cap <= n
    ensures AllAtMost(Drain(text, cap), n)
  {
    var t := Parse(text);
    LinesAtMost(text, |text|);
    forall k | 0 <= k < |t.lines| ensures |StripAll(t.lines)[k]| <= n {
      StripShortens(t.lines[k]);
    }
    SegmentsAtMost(t.open, cap);
  }

  /** So what is kept in memory is bounded for every stream. */
  lemma CapturedBounded(chunks: seq<string>, cap: Cap, bound: nat, read: nat)
    requires bound > 0 && AllAtMost(chunks, read)
    ensures Charge(Captured(Emitted("", chunks, 0, cap), bound)) <= bound + cap + read
  {
    EmittedAtMost("", chunks, 0, cap, read);
    CapturedIsBoundedHead(Emitted("", chunks, 0, cap), bound, cap + read);
  }

  // ---- What the words mean -------------------------------------------------------------------------

  /** The lines, each with its newline. */
  function Joined(ls: seq<string>): string {
    if ls == [] then "" else Joined(ls[..|ls| - 1]) + ls[|ls| - 1] + "\n"
  }

  predicate Unbroken(s: string) { forall k :: 0 <= k < |s| ==> s[k] != '\n' }

  /** A text is its lines and the open one: nothing else was there, and no line has a newline inside. */
  lemma {:induction false} ParseSplits(s: string, n: nat)
    requires n <= |s|
    ensures s[..n] == Joined(ParseTo(s, n).lines) + ParseTo(s, n).open
    ensures Unbroken(ParseTo(s, n).open)
    ensures forall k :: 0 <= k < |ParseTo(s, n).lines| ==> Unbroken(ParseTo(s, n).lines[k])
  {
    if n > 0 {
      ParseSplits(s, n - 1);
      var t := ParseTo(s, n - 1);
      assert s[..n] == s[..n - 1] + [s[n - 1]];
      assert (t.lines + [t.open])[..|t.lines|] == t.lines;
    }
  }

  /** The carriage returns at the end, all of them, are what stripping takes away. */
  lemma {:induction false} StripCrTakes(s: string)
    ensures StripCr(s) <= s && (StripCr(s) != "" ==> StripCr(s)[|StripCr(s)| - 1] != '\r')
    ensures forall k :: |StripCr(s)| <= k < |s| ==> s[k] == '\r'
  {
    if s != "" && s[|s| - 1] == CR { StripCrTakes(s[..|s| - 1]); }
  }

  /** The charge is the length of the lines written out. */
  lemma {:induction false} ChargeIsLength(ls: seq<string>)
    ensures Charge(ls) == |Joined(ls)|
  {
    if ls != [] { ChargeIsLength(ls[..|ls| - 1]); }
  }
}
