/** The terminal line discipline: input characters are edited into lines, and lines
    (or, in non-canonical mode, single characters) are released into a small ring that
    readers empty.  Each round of the poll loop and each pop by a reader is one step,
    so readers may come in anywhere; the terminal settings stay fixed.

    Canonical mode is modelled as the source has it: a delivered line stays in the
    line buffer, and only graphic characters are stored.  What that does to the output,
    compared with emptying the line and storing every character, is stated below. */
module LineDiscipline {
  import opened Base

  datatype Term = Term(
    igncr: bool, icrnl: bool, canonical: bool, echok: bool, iexten: bool,
    vkill: Byte, verase: Byte, veof: Byte, veol: Byte, veol2: Byte)

  const CR: Byte := 13
  const LF: Byte := 10

  // -------------------------------------------- the reference: no ring, no waiting

  /** The line being edited, and everything released so far. */
  datatype Edit = Edit(line: seq<Byte>, out: seq<Byte>)

  /** Carriage-return handling: dropped, turned into a newline, or kept. */
  function Translate(t: Term, ch: Byte): Option<Byte> {
    if ch != CR then Some(ch) else if t.igncr then None else if t.icrnl then Some(LF) else Some(CR)
  }

  predicate IsEol(t: Term, ch: Byte) {
    ch == LF || ch == t.veol || (t.iexten && ch == t.veol2)
  }

  predicate Graphic(ch: Byte) {
    33 <= ch <= 126
  }

  /** What one input character does to the line, and whether it releases it. */
  function EditLine(t: Term, line: seq<Byte>, ch: Byte): (seq<Byte>, bool) {
    if t.echok && ch == t.vkill then ([], false)
    else if ch == t.verase then (if line == [] then [] else line[..|line| - 1], false)
    else if IsEol(t, ch) || ch == t.veof then
      var line' := if ch != t.veof then line + [ch] else line;
      (line', line' != [])
    else if Graphic(ch) then (line + [ch], false)
    else (line, false)
  }

  function Feed(t: Term, e: Edit, raw: Byte): Edit {
    match Translate(t, raw)
    case None => e
    case Some(ch) =>
      if !t.canonical then e.(out := e.out + [ch])
      else
        var (line, release) := EditLine(t, e.line, ch);
        Edit(line, if release then e.out + line else e.out)
  }

  function FeedAll(t: Term, input: seq<Byte>): Edit {
    if input == [] then Edit([], []) else Feed(t, FeedAll(t, input[..|input| - 1]), input[|input| - 1])
  }

  /** In non-canonical mode the output is the input after carriage-return handling. */
  function Plain(t: Term, input: seq<Byte>): seq<Byte> {
    if input == [] then []
    else
      var ch := Translate(t, input[|input| - 1]);
      Plain(t, input[..|input| - 1]) + if ch.Some? then [ch.value] else []
  }

  lemma {:induction false} RawModeIsPlain(t: Term, input: seq<Byte>)
    requires !t.canonical
    ensures FeedAll(t, input) == Edit([], Plain(t, input))
  {
    if input != [] {
      RawModeIsPlain(t, input[..|input| - 1]);
    }
  }

  /** Without carriage returns. */
  function Stripped(input: seq<Byte>): seq<Byte> {
    if input == [] then [] else (if input[0] == CR then [] else [input[0]]) + Stripped(input[1..])
  }

  lemma {:induction false} StrippedMore(input: seq<Byte>, ch: Byte)
    ensures Stripped(input + [ch]) == Stripped(input) + if ch == CR then [] else [ch]
  {
    if input != [] {
      StrippedMore(input[1..], ch);
      assert (input + [ch])[1..] == input[1..] + [ch];
    }
  }

  /** What the settings make of carriage returns: IGNCR drops them and nothing else; without
      it ICRNL turns each into a newline in its place; without both the input is unchanged. */
  lemma {:induction false} PlainMeans(t: Term, input: seq<Byte>)
    ensures t.igncr ==> Plain(t, input) == Stripped(input)
    ensures !t.igncr ==> |Plain(t, input)| == |input|
    ensures !t.igncr ==>
              forall i :: 0 <= i < |input| ==> Plain(t, input)[i] == if t.icrnl && input[i] == CR then LF else input[i]
  {
    if input != [] {
      var n := |input| - 1;
      PlainMeans(t, input[..n]);
      StrippedMore(input[..n], input[n]);
      assert input[..n] + [input[n]] == input;
    }
  }

  // -------------------------------------------------------------- editing the line

  function FeedFrom(t: Term, e: Edit, input: seq<Byte>): Edit {
    if input == [] then e else Feed(t, FeedFrom(t, e, input[..|input| - 1]), input[|input| - 1])
  }

  lemma {:induction false} FeedJoin(t: Term, pre: seq<Byte>, post: seq<Byte>)
    ensures FeedAll(t, pre + post) == FeedFrom(t, FeedAll(t, pre), post)
    decreases |post|
  {
    hide Feed;
    if post == [] {
      assert pre + post == pre;
    } else {
      var n := |post| - 1;
      FeedJoin(t, pre, post[..n]);
      assert (pre + post)[..|pre + post| - 1] == pre + post[..n];
    }
  }

  /** What was released before does not matter. */
  lemma {:induction false} FeedApart(t: Term, e: Edit, input: seq<Byte>)
    ensures FeedFrom(t, e, input) == var r := FeedFrom(t, Edit(e.line, []), input); Edit(r.line, e.out + r.out)
  {
    if input == [] {
      assert e.out + [] == e.out;
    } else {
      FeedApart(t, e, input[..|input| - 1]);
      hide EditLine;
    }
  }

  lemma {:induction false} FeedStart(t: Term, input: seq<Byte>)
    ensures FeedFrom(t, Edit([], []), input) == FeedAll(t, input)
  {
    hide Feed;
    if input != [] { FeedStart(t, input[..|input| - 1]); }
  }

  /** A kill character forgets the line: what comes after it is edited and released as if
      it were the beginning of the input. */
  lemma KillForgets(t: Term, pre: seq<Byte>, raw: Byte, post: seq<Byte>)
    requires t.canonical && t.echok && Translate(t, raw) == Some(t.vkill)
    ensures FeedAll(t, pre + [raw] + post) ==
            Edit(FeedAll(t, post).line, FeedAll(t, pre).out + FeedAll(t, post).out)
  {
    FeedJoin(t, pre + [raw], post);
    FeedMore(t, pre, raw);
    FeedApart(t, Edit([], FeedAll(t, pre).out), post);
    FeedStart(t, post);
  }

  /** An erase character takes back the graphic character before it, whatever follows; a
      character that was not stored it does not count. */
  lemma EraseUndoes(t: Term, pre: seq<Byte>, ch: Byte, erase: Byte, post: seq<Byte>)
    requires t.canonical && ch != CR && Ordinary(t, ch)
    requires Translate(t, erase) == Some(t.verase) && !(t.echok && t.verase == t.vkill)
    ensures FeedAll(t, pre + [ch] + [erase] + post) ==
            if Graphic(ch) then FeedAll(t, pre + post) else FeedAll(t, pre + [erase] + post)
  {
    FeedMore(t, pre, ch);
    FeedMore(t, pre, erase);
    FeedMore(t, pre + [ch], erase);
    FeedJoin(t, pre + [ch] + [erase], post);
    FeedJoin(t, pre, post);
    FeedJoin(t, pre + [erase], post);
    hide FeedFrom;
    hide FeedAll;
    var e := FeedAll(t, pre);
    assert (e.line + [ch])[..|e.line|] == e.line;
  }

  /** A character that neither edits nor ends the line is stored exactly if it is one of the
      printable ones from '!' to '~', and releases nothing. */
  lemma StoredIff(t: Term, pre: seq<Byte>, raw: Byte, ch: Byte)
    requires t.canonical && Translate(t, raw) == Some(ch) && Ordinary(t, ch)
    ensures FeedAll(t, pre + [raw]) ==
            var e := FeedAll(t, pre); if '!' as int <= ch <= '~' as int then Edit(e.line + [ch], e.out) else e
  {
    FeedMore(t, pre, raw);
  }

  /** A line ends with a newline, VEOL, or with IEXTEN VEOL2, which are released with it, or
      with VEOF, which is not.  An empty line with VEOF releases nothing. */
  lemma LineEnds(t: Term, pre: seq<Byte>, raw: Byte, ch: Byte)
    requires t.canonical && Translate(t, raw) == Some(ch) && !(t.echok && ch == t.vkill) && ch != t.verase
    ensures var e, e' := FeedAll(t, pre), FeedAll(t, pre + [raw]);
            && (ch == t.veof ==> e' == Edit(e.line, e.out + e.line))
            && (ch != t.veof && (ch == LF || ch == t.veol || (t.iexten && ch == t.veol2)) ==>
                  e' == Edit(e.line + [ch], e.out + e.line + [ch]))
            && (ch != t.veof && ch != LF && ch != t.veol && !(t.iexten && ch == t.veol2) ==> e'.out == e.out)
  {
    FeedMore(t, pre, raw);
    hide FeedAll;
    var e := FeedAll(t, pre);
    assert e.out + [] == e.out && e.out + (e.line + [ch]) == e.out + e.line + [ch];
  }

  // ---------------------------------------------------------- the source's reader

  /** `pending` is what is left of the read buffer; `lineRead` how much of a released
      line has been delivered. */
  datatype Reader = Reader(pending: seq<Byte>, line: seq<Byte>, lineRead: Option<nat>, ring: seq<Byte>, cap: nat)

  /** One round of the loop in `InputReader::poll`; None is the break. */
  function Round(t: Term, r: Reader): Option<Reader> {
    if r.lineRead.Some? then
      var o := r.lineRead.value;
      if o > |r.line| || |r.ring| > r.cap then None
      else
        var k := Min(|r.line| - o, r.cap - |r.ring|);
        if k == 0 then None
        else Some(r.(ring := r.ring + r.line[o..o + k], lineRead := if o + k == |r.line| then None else Some(o + k)))
    else if |r.ring| >= r.cap || r.pending == [] then None
    else
      var r' := r.(pending := r.pending[1..]);
      match Translate(t, r.pending[0])
      case None => Some(r')
      case Some(ch) =>
        if !t.canonical then Some(r'.(ring := r.ring + [ch]))
        else
          var (line, release) := EditLine(t, r.line, ch);
          Some(r'.(line := line, lineRead := if release then Some(0) else None))
  }

  /** The part of a released line that is still to be delivered. */
  function Undelivered(r: Reader): seq<Byte> {
    if r.lineRead.Some? && r.lineRead.value <= |r.line| then r.line[r.lineRead.value..] else []
  }

  // ------------------------------------------------------------------------ runs

  /** `input` is all that was read from the device, `delivered` all that readers got. */
  datatype Sys = Sys(r: Reader, input: seq<Byte>, delivered: seq<Byte>)

  datatype Step = StepFetch(chunk: seq<Byte>) | StepRound | StepRead(n: nat)

  ghost predicate Next(t: Term, s: Sys, step: Step, s': Sys) {
    match step
    case StepFetch(chunk) =>
      s.r.pending == [] && s' == s.(r := s.r.(pending := chunk), input := s.input + chunk)
    case StepRound => Round(t, s.r).Some? && s' == s.(r := Round(t, s.r).value)
    case StepRead(n) =>
      var k := Min(n, |s.r.ring|);
      s' == s.(r := s.r.(ring := s.r.ring[k..]), delivered := s.delivered + s.r.ring[..k])
  }

  function Consumed(s: Sys): seq<Byte> {
    if |s.r.pending| <= |s.input| then s.input[..|s.input| - |s.r.pending|] else []
  }

  ghost predicate ReaderOk(r: Reader) {
    && |r.ring| <= r.cap && r.cap > 0
    && (r.lineRead.Some? ==> r.lineRead.value < |r.line| && (r.lineRead.value == 0 ==> |r.ring| < r.cap))
  }

  ghost predicate Inv(t: Term, s: Sys) {
    && ReaderOk(s.r)
    && s.input == Consumed(s) + s.r.pending
    && s.r.line == FeedAll(t, Consumed(s)).line
    && s.delivered + s.r.ring + Undelivered(s.r) == FeedAll(t, Consumed(s)).out
  }

  /** A round either delivers part of a released line and consumes nothing, or consumes
      one character, and then only while no released line is waiting. */
  lemma RoundShape(t: Term, r: Reader)
    requires ReaderOk(r) && Round(t, r).Some?
    ensures var r' := Round(t, r).value;
            && ReaderOk(r') && r'.cap == r.cap
            && (r.lineRead.Some? ==>
                  r'.pending == r.pending && r'.line == r.line
                  && r'.ring + Undelivered(r') == r.ring + Undelivered(r) && |r'.ring| > |r.ring|)
            && (r.lineRead.None? ==> r.pending != [] && r'.pending == r.pending[1..])
  {
  }

  lemma RoundGrows(t: Term, r: Reader)
    ensures Round(t, r).Some? ==> |Round(t, r).value.ring| >= |r.ring|
  {
    hide EditLine;
  }

  lemma RoundFeeds(t: Term, r: Reader, e: Edit, delivered: seq<Byte>)
    requires ReaderOk(r) && Round(t, r).Some? && r.lineRead.None?
    requires r.line == e.line && delivered + r.ring == e.out
    ensures var r', e' := Round(t, r).value, Feed(t, e, r.pending[0]);
            r'.line == e'.line && delivered + r'.ring + Undelivered(r') == e'.out
  {
  }

  lemma {:induction false} FeedMore(t: Term, input: seq<Byte>, ch: Byte)
    ensures FeedAll(t, input + [ch]) == Feed(t, FeedAll(t, input), ch)
  {
    assert (input + [ch])[..|input|] == input;
  }

  lemma RoundInv(t: Term, s: Sys, s': Sys)
    requires Inv(t, s) && Next(t, s, StepRound, s')
    ensures Inv(t, s')
  {
    hide Round;
    hide Feed;
    hide FeedAll;
    RoundShape(t, s.r);
    if s.r.lineRead.None? {
      RoundFeeds(t, s.r, FeedAll(t, Consumed(s)), s.delivered);
      FeedMore(t, Consumed(s), s.r.pending[0]);
      assert Consumed(s') == Consumed(s) + [s.r.pending[0]];
    } else {
      assert Consumed(s') == Consumed(s);
      assert s.delivered + s'.r.ring + Undelivered(s'.r) == s.delivered + (s'.r.ring + Undelivered(s'.r));
      assert s.delivered + s.r.ring + Undelivered(s.r) == s.delivered + (s.r.ring + Undelivered(s.r));
    }
  }

  lemma FetchInv(t: Term, s: Sys, chunk: seq<Byte>, s': Sys)
    requires Inv(t, s) && Next(t, s, StepFetch(chunk), s')
    ensures Inv(t, s')
  {
    hide FeedAll;
    assert Consumed(s') == Consumed(s);
  }

  lemma ReadInv(t: Term, s: Sys, n: nat, s': Sys)
    requires Inv(t, s) && Next(t, s, StepRead(n), s')
    ensures Inv(t, s')
  {
    hide FeedAll;
    assert Consumed(s') == Consumed(s);
    var k := Min(n, |s.r.ring|);
    assert s.r.ring == s.r.ring[..k] + s.r.ring[k..];
  }

  lemma NextInv(t: Term, s: Sys, step: Step, s': Sys)
    requires Inv(t, s) && Next(t, s, step, s')
    ensures Inv(t, s')
  {
    hide Inv;
    match step
    case StepFetch(chunk) => FetchInv(t, s, chunk, s');
    case StepRound => RoundInv(t, s, s');
    case StepRead(n) => ReadInv(t, s, n, s');
  }

  ghost predicate Run(t: Term, states: seq<Sys>, steps: seq<Step>) {
    && |states| == |steps| + 1 && (exists cap :: cap > 0 && states[0] == Sys(Reader([], [], None, [], cap), [], []))
    && forall k :: 0 <= k < |steps| ==> Next(t, states[k], steps[k], states[k + 1])
  }

  /** Whatever the ring's size and however polls and reads interleave, what readers got,
      then the ring, then the rest of a released line, is exactly what the reference
      releases for the characters consumed, in order; and no character is lost between
      the device and the reader. */
  lemma {:induction false} RunRefines(t: Term, states: seq<Sys>, steps: seq<Step>, n: nat)
    requires Run(t, states, steps) && n < |states|
    ensures Inv(t, states[n])
  {
    if n > 0 {
      RunRefines(t, states, steps, n - 1);
      NextInv(t, states[n - 1], steps[n - 1], states[n]);
    }
  }

  /** Non-canonical mode, in plain terms. */
  lemma RunRaw(t: Term, states: seq<Sys>, steps: seq<Step>, n: nat)
    requires Run(t, states, steps) && n < |states| && !t.canonical
    ensures states[n].delivered + states[n].r.ring == Plain(t, Consumed(states[n]))
  {
    RunRefines(t, states, steps, n);
    RawModeIsPlain(t, Consumed(states[n]));
  }

  // ------------------------------------------- released lines, and other characters

  /** Two ways to depart from the source: to empty the line when it is released, and to
      store every character that is not special, blanks included. */
  datatype Style = Style(keep: bool, all: bool)

  const SOURCE := Style(true, false)

  /** A character that neither edits nor ends the line. */
  predicate Ordinary(t: Term, ch: Byte) {
    !(t.echok && ch == t.vkill) && ch != t.verase && !IsEol(t, ch) && ch != t.veof
  }

  function StyledLine(t: Term, style: Style, line: seq<Byte>, ch: Byte): (seq<Byte>, bool) {
    if style.all && Ordinary(t, ch) then (line + [ch], false) else EditLine(t, line, ch)
  }

  function StyledFeed(t: Term, style: Style, e: Edit, raw: Byte): Edit {
    match Translate(t, raw)
    case None => e
    case Some(ch) =>
      if !t.canonical then e.(out := e.out + [ch])
      else
        var (line, release) := StyledLine(t, style, e.line, ch);
        Edit(if release && !style.keep then [] else line, if release then e.out + line else e.out)
  }

  function Styled(t: Term, style: Style, input: seq<Byte>): Edit {
    if input == [] then Edit([], [])
    else StyledFeed(t, style, Styled(t, style, input[..|input| - 1]), input[|input| - 1])
  }

  lemma {:induction false} StyledSource(t: Term, input: seq<Byte>)
    ensures Styled(t, SOURCE, input) == FeedAll(t, input)
  {
    if input != [] {
      StyledSource(t, input[..|input| - 1]);
    }
  }

  /** The character ends a line. */
  predicate Ends(t: Term, raw: Byte) {
    t.canonical && Translate(t, raw).Some? &&
    var ch := Translate(t, raw).value;
    !(t.echok && ch == t.vkill) && ch != t.verase && (IsEol(t, ch) || ch == t.veof)
  }

  /** Whenever a line ends, the lines of both styles have the same length. */
  ghost predicate Alike(t: Term, a: Style, b: Style, input: seq<Byte>) {
    forall n :: 0 <= n < |input| && Ends(t, input[n]) ==>
      |Styled(t, a, input[..n]).line| == |Styled(t, b, input[..n]).line|
  }

  lemma AlikeLess(t: Term, a: Style, b: Style, input: seq<Byte>)
    requires input != []
    ensures var n := |input| - 1;
            Alike(t, a, b, input) <==>
            && Alike(t, a, b, input[..n])
            && (Ends(t, input[n]) ==> |Styled(t, a, input[..n]).line| == |Styled(t, b, input[..n]).line|)
  {
    hide Styled;
    hide Ends;
    var n := |input| - 1;
    forall k | 0 <= k < n ensures input[..n][..k] == input[..k] && input[..n][k] == input[k] { }
    if Alike(t, a, b, input) {
      forall k | 0 <= k < n && Ends(t, input[..n][k])
        ensures |Styled(t, a, input[..n][..k]).line| == |Styled(t, b, input[..n][..k]).line|
      {
        assert Ends(t, input[k]);
      }
    }
    if Alike(t, a, b, input[..n]) {
      forall k | 0 <= k < n && Ends(t, input[k])
        ensures |Styled(t, a, input[..k]).line| == |Styled(t, b, input[..k]).line|
      {
        assert Ends(t, input[..n][k]);
      }
    }
  }

  ghost predicate Suffix(a: seq<Byte>, b: seq<Byte>) {
    |a| <= |b| && b[|b| - |a|..] == a
  }

  /** The step of a release: what the longer line adds to the output is at least what the
      shorter one adds, and the same exactly if they are equally long. */
  ghost predicate Ahead(more: Edit, more': Edit, less: Edit, less': Edit, ends: bool) {
    && |more'.out| - |more.out| >= |less'.out| - |less.out|
    && (ends && |more.line| > |less.line| ==> |more'.out| - |more.out| > |less'.out| - |less.out|)
    && (!(ends && |more.line| > |less.line|) && more.out == less.out ==> more'.out == less'.out)
  }

  lemma KeepStep(t: Term, all: bool, k: Edit, c: Edit, raw: Byte)
    requires Suffix(c.line, k.line)
    ensures var k', c' := StyledFeed(t, Style(true, all), k, raw), StyledFeed(t, Style(false, all), c, raw);
            Suffix(c'.line, k'.line) && Ahead(k, k', c, c', Ends(t, raw))
  {
    if |k.line| == |c.line| { assert k.line == c.line; }
  }

  /** Emptying released lines: the source's output is the same exactly if no line ends while
      an earlier one is still in the buffer; otherwise the earlier one is released again, and
      the output is longer. */
  lemma {:induction false} KeepIff(t: Term, all: bool, input: seq<Byte>)
    ensures var k, c := Styled(t, Style(true, all), input), Styled(t, Style(false, all), input);
            && Suffix(c.line, k.line) && |c.out| <= |k.out|
            && (k.out == c.out <==> Alike(t, Style(true, all), Style(false, all), input))
            && (!Alike(t, Style(true, all), Style(false, all), input) ==> |k.out| > |c.out|)
  {
    hide StyledFeed;
    hide Ends;
    if input != [] {
      var n := |input| - 1;
      KeepIff(t, all, input[..n]);
      AlikeLess(t, Style(true, all), Style(false, all), input);
      hide Alike;
      KeepStep(t, all, Styled(t, Style(true, all), input[..n]), Styled(t, Style(false, all), input[..n]), input[n]);
    }
  }

  /** `less` is shorter than `more`, or the same. */
  ghost predicate Behind(less: seq<Byte>, more: seq<Byte>) {
    |less| < |more| || less == more
  }

  lemma StoreStep(t: Term, keep: bool, f: Edit, g: Edit, raw: Byte)
    requires Behind(g.line, f.line)
    ensures var f', g' := StyledFeed(t, Style(keep, true), f, raw), StyledFeed(t, Style(keep, false), g, raw);
            Behind(g'.line, f'.line) && Ahead(f, f', g, g', Ends(t, raw))
  {
  }

  /** Storing every character: the source's output is the same exactly if no line ends while
      a character that was not stored is missing from it; otherwise the output is shorter. */
  lemma {:induction false} StoreIff(t: Term, keep: bool, input: seq<Byte>)
    ensures var f, g := Styled(t, Style(keep, true), input), Styled(t, Style(keep, false), input);
            && Behind(g.line, f.line) && |g.out| <= |f.out|
            && (f.out == g.out <==> Alike(t, Style(keep, true), Style(keep, false), input))
            && (!Alike(t, Style(keep, true), Style(keep, false), input) ==> |f.out| > |g.out|)
  {
    hide StyledFeed;
    hide Ends;
    if input != [] {
      var n := |input| - 1;
      StoreIff(t, keep, input[..n]);
      AlikeLess(t, Style(keep, true), Style(keep, false), input);
      hide Alike;
      StoreStep(t, keep, Styled(t, Style(keep, true), input[..n]), Styled(t, Style(keep, false), input[..n]), input[n]);
    }
  }

  /** All that readers got, can get from the ring, and will get of the released line. */
  function Emitted(s: Sys): seq<Byte> {
    s.delivered + s.r.ring + Undelivered(s.r)
  }

  /** In every state of every run: what is emitted is what emptying released lines would
      emit exactly if no line ended while an earlier one was in the buffer, and what storing
      every character would emit exactly if no line ended with a character missing. */
  lemma RunCanonicalIff(t: Term, states: seq<Sys>, steps: seq<Step>, n: nat)
    requires Run(t, states, steps) && n < |states|
    ensures var out, input := Emitted(states[n]), Consumed(states[n]);
            var clean, full := Styled(t, Style(false, false), input).out, Styled(t, Style(true, true), input).out;
            && |clean| <= |out| <= |full|
            && (out == clean <==> Alike(t, SOURCE, Style(false, false), input))
            && (out == full <==> Alike(t, Style(true, true), SOURCE, input))
  {
    hide FeedAll;
    hide Styled;
    hide Alike;
    RunRefines(t, states, steps, n);
    StyledSource(t, Consumed(states[n]));
    KeepIff(t, false, Consumed(states[n]));
    StoreIff(t, true, Consumed(states[n]));
  }

  /** Where neither matters, what is emitted is what both changes together would emit.  The
      two can also cancel out, as `CancelOut` shows. */
  lemma RunCanonical(t: Term, states: seq<Sys>, steps: seq<Step>, n: nat)
    requires Run(t, states, steps) && n < |states|
    requires Alike(t, SOURCE, Style(false, false), Consumed(states[n]))
    requires Alike(t, Style(false, true), Style(false, false), Consumed(states[n]))
    ensures Emitted(states[n]) == Styled(t, Style(false, true), Consumed(states[n])).out
  {
    RunCanonicalIff(t, states, steps, n);
    StoreIff(t, false, Consumed(states[n]));
  }

  /** A run that reads any given input to its end through a ring of any size. */
  lemma ReadThrough(t: Term, input: seq<Byte>, cap: nat) returns (states: seq<Sys>, steps: seq<Step>)
    requires cap > 0
    ensures Run(t, states, steps)
    ensures states[|steps|].input == Consumed(states[|steps|]) == input
    ensures states[|steps|].delivered == FeedAll(t, input).out
  {
    hide FeedAll;
    var s0 := Sys(Reader([], [], None, [], cap), [], []);
    var s1 := Sys(Reader(input, [], None, [], cap), input, []);
    assert Next(t, s0, StepFetch(input), s1) by { assert [] + input == input; }
    states, steps := ReadOn(t, [s0, s1], [StepFetch(input)]);
  }

  /** Any run goes on to a state where all that was read from the device is delivered. */
  lemma {:induction false} ReadOn(t: Term, states: seq<Sys>, steps: seq<Step>)
    returns (states': seq<Sys>, steps': seq<Step>)
    requires Run(t, states, steps)
    ensures Run(t, states', steps') && states <= states'
    ensures var s := states'[|steps'|];
            s.input == Consumed(s) == states[|steps|].input && s.delivered == FeedAll(t, s.input).out
    decreases |states[|steps|].r.pending|, |Undelivered(states[|steps|].r)|, |states[|steps|].r.ring|
  {
    hide Round;
    hide FeedAll;
    var s := states[|steps|];
    RunRefines(t, states, steps, |steps|);
    if Round(t, s.r).None? && s.r.ring == [] {
      states', steps' := states, steps;
      EndEmpty(t, s.r);
    } else {
      var step, s' := StepRound, s;
      if Round(t, s.r).Some? {
        RoundShape(t, s.r);
        s' := s.(r := Round(t, s.r).value);
      } else {
        step := StepRead(|s.r.ring|);
        s' := s.(r := s.r.(ring := []), delivered := s.delivered + s.r.ring);
        assert s.r.ring[|s.r.ring|..] == [] && s.r.ring[..|s.r.ring|] == s.r.ring;
      }
      assert Next(t, s, step, s');
      RunMore(t, states, steps, step, s');
      states', steps' := ReadOn(t, states + [s'], steps + [step]);
    }
  }

  lemma RunMore(t: Term, states: seq<Sys>, steps: seq<Step>, step: Step, s': Sys)
    requires Run(t, states, steps) && Next(t, states[|steps|], step, s')
    ensures Run(t, states + [s'], steps + [step])
  {
    hide Next;
    var all, more := states + [s'], steps + [step];
    forall k | 0 <= k < |more| ensures Next(t, all[k], more[k], all[k + 1]) {
      if k < |steps| { assert all[k] == states[k] && all[k + 1] == states[k + 1] && more[k] == steps[k]; }
    }
  }

  lemma EndEmpty(t: Term, r: Reader)
    requires ReaderOk(r) && Round(t, r).None? && r.ring == []
    ensures r.pending == [] && Undelivered(r) == []
  {
  }

  const DEMO := Term(false, true, true, true, true, 21, 127, 4, 0, 0)

  /** It happens: of the lines "A" and "B", the first is delivered again with the second. */
  lemma LineTwice() returns (states: seq<Sys>, steps: seq<Step>)
    ensures Run(DEMO, states, steps) && Consumed(states[|steps|]) == [65, 10, 66, 10]
    ensures states[|steps|].delivered == [65, 10, 65, 10, 66, 10]
    ensures Styled(DEMO, Style(false, false), [65, 10, 66, 10]).out == [65, 10, 66, 10]
  {
    hide Run;
    hide Styled;
    hide FeedAll;
    hide Consumed;
    states, steps := ReadThrough(DEMO, [65, 10, 66, 10], 16);
    StyledSource(DEMO, [65, 10, 66, 10]);
    TwoLines(SOURCE, [65, 10]);
    TwoLines(Style(false, false), []);
  }

  lemma DemoLetter(style: Style, e: Edit, ch: Byte)
    requires ch == 65 || ch == 66
    ensures StyledFeed(DEMO, style, e, ch) == Edit(e.line + [ch], e.out)
  {
  }

  lemma DemoBlank(style: Style, e: Edit)
    ensures StyledFeed(DEMO, style, e, 32) == if style.all then Edit(e.line + [32], e.out) else e
  {
  }

  lemma DemoNewline(style: Style, e: Edit)
    ensures StyledFeed(DEMO, style, e, 10) == Edit(if style.keep then e.line + [10] else [], e.out + (e.line + [10]))
  {
  }

  lemma TwoLines(style: Style, kept: seq<Byte>)
    requires kept == if style.keep then [65, 10] else []
    ensures Styled(DEMO, style, [65, 10, 66, 10]).out == [65, 10] + (kept + [66] + [10])
  {
    hide Styled;
    hide StyledFeed;
    FourFed(style, 65, 10, 66, 10);
    var none: Edit := Edit([], []);
    DemoLetter(style, none, 65);
    DemoNewline(style, Edit(none.line + [65], none.out));
    var first := Edit(if style.keep then none.line + [65] + [10] else [], none.out + (none.line + [65] + [10]));
    DemoLetter(style, first, 66);
    DemoNewline(style, Edit(first.line + [66], first.out));
  }

  lemma FourFed(style: Style, a: Byte, b: Byte, c: Byte, d: Byte)
    ensures Styled(DEMO, style, [a, b, c, d]) ==
            StyledFeed(DEMO, style, StyledFeed(DEMO, style, StyledFeed(DEMO, style, StyledFeed(DEMO, style,
              Edit([], []), a), b), c), d)
  {
    hide StyledFeed;
    assert [a, b, c, d][..3] == [a, b, c] && [a, b, c][..2] == [a, b] && [a, b][..1] == [a] && [a][..0] == [];
    assert Styled(DEMO, style, [a]) == StyledFeed(DEMO, style, Edit([], []), a);
    assert Styled(DEMO, style, [a, b]) == StyledFeed(DEMO, style, Styled(DEMO, style, [a]), b);
    assert Styled(DEMO, style, [a, b, c]) == StyledFeed(DEMO, style, Styled(DEMO, style, [a, b]), c);
  }

  /** It happens: the blank of the line "A B" is not delivered. */
  lemma BlankDropped() returns (states: seq<Sys>, steps: seq<Step>)
    ensures Run(DEMO, states, steps) && Consumed(states[|steps|]) == [65, 32, 66, 10]
    ensures states[|steps|].delivered == [65, 66, 10]
    ensures Styled(DEMO, Style(true, true), [65, 32, 66, 10]).out == [65, 32, 66, 10]
  {
    hide Run;
    hide Styled;
    hide FeedAll;
    hide Consumed;
    states, steps := ReadThrough(DEMO, [65, 32, 66, 10], 16);
    StyledSource(DEMO, [65, 32, 66, 10]);
    BlankLine(SOURCE);
    BlankLine(Style(true, true));
  }

  lemma BlankLine(style: Style)
    ensures Styled(DEMO, style, [65, 32, 66, 10]).out == if style.all then [65, 32, 66, 10] else [65, 66, 10]
  {
    hide Styled;
    hide StyledFeed;
    FourFed(style, 65, 32, 66, 10);
    var start: seq<Byte> := if style.all then [65, 32] else [65];
    DemoLetter(style, Edit([], []), 65);
    DemoBlank(style, Edit([65], []));
    assert [] + [65] == [65] && [65] + [32] == [65, 32];
    DemoLetter(style, Edit(start, []), 66);
    DemoNewline(style, Edit(start + [66], []));
    assert [] + (start + [66] + [10]) == if style.all then [65, 32, 66, 10] else [65, 66, 10];
  }

  lemma FedMore(style: Style, input: seq<Byte>, ch: Byte)
    ensures Styled(DEMO, style, input + [ch]) == StyledFeed(DEMO, style, Styled(DEMO, style, input), ch)
  {
    assert (input + [ch])[..|input|] == input;
  }

  lemma DemoEof(style: Style, e: Edit)
    requires e.line != []
    ensures StyledFeed(DEMO, style, e, 4) == Edit(if style.keep then e.line else [], e.out + e.line)
  {
  }

  lemma DemoErase(style: Style, e: Edit)
    requires e.line != []
    ensures StyledFeed(DEMO, style, e, 127) == Edit(e.line[..|e.line| - 1], e.out)
  {
  }

  /** "A", end of file, "A", blank, erase, newline. */
  const CANCEL: seq<Byte> := [65] + [4] + [65] + [32] + [127] + [10]

  lemma Cancelled(style: Style, kept: seq<Byte>)
    requires kept == if style.keep then [65] else []
    ensures Styled(DEMO, style, CANCEL).out == [65] + ((if style.all then kept + [65] else kept) + [10])
  {
    hide Styled;
    hide StyledFeed;
    var none: seq<Byte> := [];
    assert Styled(DEMO, style, [65]) == Edit([65], []) by {
      FedMore(style, [], 65);
      DemoLetter(style, Edit([], []), 65);
      assert none + [65] == [65] && Styled(DEMO, style, []) == Edit([], []) by { StyledNone(style); }
    }
    FedMore(style, [65], 4);
    DemoEof(style, Edit([65], []));
    assert none + [65] == [65];
    FedMore(style, [65] + [4], 65);
    DemoLetter(style, Edit(kept, [65]), 65);
    FedMore(style, [65] + [4] + [65], 32);
    DemoBlank(style, Edit(kept + [65], [65]));
    FedMore(style, [65] + [4] + [65] + [32], 127);
    var typed := if style.all then kept + [65] + [32] else kept + [65];
    DemoErase(style, Edit(typed, [65]));
    assert typed[..|typed| - 1] == if style.all then kept + [65] else kept;
    FedMore(style, [65] + [4] + [65] + [32] + [127], 10);
    DemoNewline(style, Edit(typed[..|typed| - 1], [65]));
  }

  lemma StyledNone(style: Style)
    ensures Styled(DEMO, style, []) == Edit([], [])
  {
  }

  /** The kept line makes up for a letter that was erased in place of a blank: the output is
      that of both changes together, though not that of emptying lines alone. */
  lemma CancelOut()
    ensures Styled(DEMO, SOURCE, CANCEL).out == Styled(DEMO, Style(false, true), CANCEL).out
    ensures Styled(DEMO, SOURCE, CANCEL).out != Styled(DEMO, Style(false, false), CANCEL).out
  {
    hide Styled;
    Cancelled(SOURCE, [65]);
    Cancelled(Style(false, true), []);
    Cancelled(Style(false, false), []);
  }

  // ------------------------------------------------------------ the poll as a whole

  /** The loop ends: each round consumes a character or delivers part of a line. */
  function PollAll(t: Term, r: Reader): (r': Reader)
    requires ReaderOk(r)
    ensures ReaderOk(r') && Round(t, r').None?
    decreases |r.pending|, |Undelivered(r)|
  {
    match Round(t, r)
    case None => r
    case Some(next) => RoundShape(t, r); PollAll(t, next)
  }

  /** What a poll starts its loop with. */
  function Begin(r: Reader, clear: bool, fetched: seq<Byte>): (r': Reader)
    requires ReaderOk(r) && !(clear && r.lineRead.Some?)
    ensures ReaderOk(r')
  {
    r.(line := if clear then [] else r.line, pending := if r.pending == [] then fetched else r.pending)
  }

  lemma {:induction false} RoundsRun(t: Term, states: seq<Sys>, steps: seq<Step>)
    returns (states': seq<Sys>, steps': seq<Step>)
    requires Run(t, states, steps) && ReaderOk(states[|steps|].r)
    ensures Run(t, states', steps') && states <= states'
    ensures states'[|steps'|] == states[|steps|].(r := PollAll(t, states[|steps|].r))
    decreases |states[|steps|].r.pending|, |Undelivered(states[|steps|].r)|
  {
    hide Round;
    hide Next;
    var s := states[|steps|];
    states', steps' := states, steps;
    if Round(t, s.r).Some? {
      RoundShape(t, s.r);
      var s' := s.(r := Round(t, s.r).value);
      assert Next(t, s, StepRound, s') by { RoundNext(t, s); }
      RunMore(t, states, steps, StepRound, s');
      states', steps' := RoundsRun(t, states + [s'], steps + [StepRound]);
    }
  }

  lemma RoundNext(t: Term, s: Sys)
    requires Round(t, s.r).Some?
    ensures Next(t, s, StepRound, s.(r := Round(t, s.r).value))
  {
  }

  /** A poll is a stretch of a run: the input it gets from the device if it has none left,
      and then rounds until none is possible. */
  lemma PollIsRun(t: Term, states: seq<Sys>, steps: seq<Step>, fetched: seq<Byte>)
    returns (states': seq<Sys>, steps': seq<Step>)
    requires Run(t, states, steps)
    ensures ReaderOk(states[|steps|].r) && Run(t, states', steps') && states <= states'
    ensures var s := states[|steps|];
            states'[|steps'|] == s.(r := PollAll(t, Begin(s.r, false, fetched)),
                                    input := s.input + if s.r.pending == [] then fetched else [])
  {
    hide Round;
    var s := states[|steps|];
    RunRefines(t, states, steps, |steps|);
    states', steps' := states, steps;
    if s.r.pending == [] {
      var s' := s.(r := s.r.(pending := fetched), input := s.input + fetched);
      assert Next(t, s, StepFetch(fetched), s');
      RunMore(t, states, steps, StepFetch(fetched), s');
      states', steps' := states + [s'], steps + [StepFetch(fetched)];
      assert s'.r == Begin(s.r, false, fetched);
    } else {
      assert s.input + [] == s.input && s.r == Begin(s.r, false, fetched);
    }
    states', steps' := RoundsRun(t, states', steps');
  }

  // ---------------------------------------------------------------------- draining

  /** `drain_input` empties the ring, and makes the next poll clear the line buffer;
      neither touches the delivery offset. */
  function Drained(r: Reader): Reader {
    r.(ring := [], line := [])
  }

  /** The poll slices the line buffer from the delivery offset on. */
  predicate SliceFails(r: Reader) {
    r.lineRead.Some? && r.lineRead.value > |r.line|
  }

  /** In every state of every run, the next poll after a drain slices past the end of the
      line buffer exactly when a released line is partly delivered: seen from outside,
      when readers and the ring have some of what was released last, but not all of it. */
  lemma DrainFailsIff(t: Term, states: seq<Sys>, steps: seq<Step>, n: nat)
    requires Run(t, states, steps) && n < |states|
    ensures !SliceFails(states[n].r)
    ensures SliceFails(Drained(states[n].r)) <==> states[n].r.lineRead.Some? && states[n].r.lineRead.value > 0
    ensures var e, got := FeedAll(t, Consumed(states[n])), |states[n].delivered| + |states[n].r.ring|;
            SliceFails(Drained(states[n].r)) <==> |e.out| - |e.line| < got < |e.out|
  {
    hide FeedAll;
    RunRefines(t, states, steps, n);
  }

  /** Clearing the line at the start of a poll completes a drain. */
  lemma ClearIsDrain(r: Reader, fetched: seq<Byte>)
    requires ReaderOk(r) && r.lineRead.None?
    ensures Begin(r.(ring := []), true, fetched) == Begin(Drained(r), false, fetched)
  {
  }

  /** A drain forgets what was released and what was typed so far: from then on readers get
      what a new reader would release for the input that was not consumed yet. */
  lemma {:induction false} AfterDrain(t: Term, r: Reader, states: seq<Sys>, steps: seq<Step>, n: nat)
    requires ReaderOk(r) && r.lineRead.None? && n < |states| == |steps| + 1
    requires states[0] == Sys(Drained(r), r.pending, [])
    requires forall k :: 0 <= k < |steps| ==> Next(t, states[k], steps[k], states[k + 1])
    ensures Emitted(states[n]) == FeedAll(t, Consumed(states[n])).out
    ensures states[n].input == Consumed(states[n]) + states[n].r.pending
  {
    AfterDrainInv(t, r, states, steps, n);
  }

  lemma {:induction false} AfterDrainInv(t: Term, r: Reader, states: seq<Sys>, steps: seq<Step>, n: nat)
    requires ReaderOk(r) && r.lineRead.None? && n < |states| == |steps| + 1
    requires states[0] == Sys(Drained(r), r.pending, [])
    requires forall k :: 0 <= k < |steps| ==> Next(t, states[k], steps[k], states[k + 1])
    ensures Inv(t, states[n])
  {
    if n > 0 {
      AfterDrainInv(t, r, states, steps, n - 1);
      hide Inv;
      NextInv(t, states[n - 1], steps[n - 1], states[n]);
    }
  }

  /** A line is still to be delivered whenever more has been released than was read and
      fits the ring. */
  lemma OverfullIsPartial(t: Term, states: seq<Sys>, steps: seq<Step>, n: nat)
    requires Run(t, states, steps) && n < |states|
    requires |FeedAll(t, Consumed(states[n])).out| > |states[n].delivered| + states[n].r.cap
    ensures states[n].r.lineRead.Some?
  {
    RunRefines(t, states, steps, n);
  }

  /** That happens: with a ring of one byte, the line "A" and newline is half delivered
      when the poll ends, and still is when a reader has taken that half. */
  lemma DrainFails() returns (t: Term, states: seq<Sys>, steps: seq<Step>)
    ensures Run(t, states, steps) && |states| == 6
    ensures Round(t, states[4].r).None? && SliceFails(Drained(states[4].r))
    ensures Round(t, states[5].r).Some? && SliceFails(Drained(states[5].r))
  {
    hide Round;
    t := DEMO;
    var input := [65, 10];
    var r1, r2, r3, r4, r5 := HalfDelivered();
    var s0 := Sys(Reader([], [], None, [], 1), [], []);
    states := [s0, Sys(r1, input, []), Sys(r2, input, []), Sys(r3, input, []), Sys(r4, input, []),
               Sys(r5, input, [65])];
    steps := [StepFetch(input), StepRound, StepRound, StepRound, StepRead(1)];
    assert Next(t, s0, steps[0], states[1]) by { assert [] + input == input; }
    assert Next(t, states[4], steps[4], states[5]) by { assert [65][..1] == [65] && [65][1..] == []; }
    forall k | 0 <= k < 5 ensures Next(t, states[k], steps[k], states[k + 1]) { }
  }

  lemma HalfDelivered() returns (r1: Reader, r2: Reader, r3: Reader, r4: Reader, r5: Reader)
    ensures r1 == Reader([65, 10], [], None, [], 1) && r2 == Reader([10], [65], None, [], 1)
    ensures r3 == Reader([], [65, 10], Some(0), [], 1) && r4 == Reader([], [65, 10], Some(1), [65], 1)
    ensures r5 == Reader([], [65, 10], Some(1), [], 1)
    ensures Round(DEMO, r1) == Some(r2) && Round(DEMO, r2) == Some(r3) && Round(DEMO, r3) == Some(r4)
    ensures Round(DEMO, r4).None? && Round(DEMO, r5).Some?
  {
    r1, r2 := Reader([65, 10], [], None, [], 1), Reader([10], [65], None, [], 1);
    r3, r4 := Reader([], [65, 10], Some(0), [], 1), Reader([], [65, 10], Some(1), [65], 1);
    r5 := Reader([], [65, 10], Some(1), [], 1);
    assert EditLine(DEMO, [], 65).0 == [65] && EditLine(DEMO, [65], 10).0 == [65, 10];
    assert r1.pending[1..] == [10] && r2.pending[1..] == [];
    assert r3.ring + r3.line[0..1] == [65];
  }

  // ---------------------------------------------------------------------- code

  datatype Outcome = Sent(any: bool) | Panic

  /** Where the loop ends, a released line has been delivered in part. */
  lemma EndRests(t: Term, r: Reader)
    requires ReaderOk(r) && Round(t, r) == None
    ensures r.lineRead.Some? ==> r.lineRead.value > 0
  {
  }

  class InputReader {
    var readBuf: seq<Byte>
    var rangeStart: nat
    var rangeEnd: nat
    var line: seq<Byte>
    var lineRead: Option<nat>
    var clearLine: bool
    var ring: seq<Byte>
    const cap: nat

    ghost predicate Valid()
      reads this
    {
      rangeStart <= rangeEnd <= |readBuf| && ReaderOk(Value())
    }

    /** Between polls, a released line is delivered in part at least. */
    ghost predicate Resting()
      reads this
    {
      Valid() && (lineRead.Some? ==> lineRead.value > 0)
    }

    function Value(): Reader
      reads this
    {
      Reader(if rangeStart <= rangeEnd <= |readBuf| then readBuf[rangeStart..rangeEnd] else [],
             line, lineRead, ring, cap)
    }

    constructor (cap: nat)
      requires cap > 0
      ensures Resting() && Value() == Reader([], [], None, [], cap) && !clearLine
    {
      this.cap := cap;
      readBuf, rangeStart, rangeEnd := [], 0, 0;
      line, lineRead, clearLine, ring := [], None, false, [];
    }

    /** Deliver what fits of a released line. */
    method Deliver(t: Term) returns (pushed: nat)
      requires Valid() && lineRead.Some?
      modifies this`ring, this`lineRead
      ensures Valid() && pushed == |ring| - |old(ring)|
      ensures Round(t, old(Value())) == if pushed == 0 then None else Some(Value())
      ensures pushed == 0 ==> Value() == old(Value())
    {
      var o := lineRead.value;
      pushed := if |line| - o < cap - |ring| then |line| - o else cap - |ring|;
      if pushed == 0 { return; }
      ring := ring + line[o..o + pushed];
      lineRead := if o + pushed == |line| then None else Some(o + pushed);
    }

    method EditChar(t: Term, ch: Byte)
      requires lineRead.None?
      modifies this`line, this`lineRead
      ensures line == EditLine(t, old(line), ch).0
      ensures lineRead == if EditLine(t, old(line), ch).1 then Some(0) else None
    {
      if t.echok && ch == t.vkill {
        line := [];
      } else if ch == t.verase {
        line := if line == [] then [] else line[..|line| - 1];
      } else if IsEol(t, ch) || ch == t.veof {
        if ch != t.veof { line := line + [ch]; }
        if line != [] { lineRead := Some(0); }
      } else if Graphic(ch) {
        line := line + [ch];
      }
    }

    /** Consume one character; a full ring was ruled out, so the push in non-canonical
        mode has room. */
    method Consume(t: Term)
      requires Valid() && lineRead.None? && |ring| < cap && rangeStart < rangeEnd
      modifies this`rangeStart, this`ring, this`line, this`lineRead
      ensures Valid() && Round(t, old(Value())) == Some(Value())
    {
      hide EditLine;
      ghost var before := Value();
      RoundShape(t, before);
      var ch := readBuf[rangeStart];
      rangeStart := rangeStart + 1;
      assert Value().pending == before.pending[1..];
      if ch == CR {
        if t.igncr { return; }
        if t.icrnl { ch := LF; }
      }
      if t.canonical {
        EditChar(t, ch);
      } else {
        ring := ring + [ch];
      }
    }

    /** One round of the loop; false is the break. */
    method RoundOnce(t: Term) returns (go: bool)
      requires Valid()
      modifies this`rangeStart, this`ring, this`line, this`lineRead
      ensures Valid() && Round(t, old(Value())) == if go then Some(Value()) else None
      ensures !go ==> Value() == old(Value())
    {
      if lineRead.Some? {
        var pushed := Deliver(t);
        return pushed > 0;
      }
      if |ring| >= cap || rangeStart == rangeEnd { return false; }
      Consume(t);
      go := true;
    }

    /** The loop of `poll`. */
    method RoundsOn(t: Term) returns (sent: nat)
      requires Valid()
      modifies this`rangeStart, this`ring, this`line, this`lineRead
      ensures Valid() && Value() == PollAll(t, old(Value())) && sent == |ring| - |old(ring)|
    {
      hide Round;
      sent := 0;
      var go := true;
      while go
        invariant Valid() && sent == |ring| - |old(ring)|
        invariant PollAll(t, Value()) == PollAll(t, old(Value()))
        invariant !go ==> Round(t, Value()) == None
        decreases go, |Value().pending|, |Undelivered(Value())|
      {
        ghost var before := Value();
        RoundGrows(t, before);
        var size := |ring|;
        go := RoundOnce(t);
        sent := sent + |ring| - size;
        if go { RoundShape(t, before); }
      }
    }

    /** `drain_input`. */
    method DrainInput()
      requires Valid()
      modifies this`ring, this`clearLine
      ensures Valid() && clearLine && Value() == old(Value()).(ring := [])
    {
      ring := [];
      clearLine := true;
    }

    /** `InputReader::poll`; `fetched` is what the device would give now.  The slice of the
        line buffer panics exactly if the line was cleared while partly delivered. */
    method Poll(t: Term, fetched: seq<Byte>) returns (r: Outcome)
      requires Resting()
      modifies this
      ensures r.Panic? <==> old(clearLine) && old(lineRead).Some?
      ensures r.Sent? ==> Resting() && !clearLine
      ensures r.Sent? ==> Value() == PollAll(t, Begin(old(Value()), old(clearLine), fetched))
      ensures r.Sent? ==> (r.any <==> |ring| > |old(ring)|)
    {
      hide Round;
      hide PollAll;
      if clearLine {
        clearLine := false;
        line := [];
      }
      if rangeStart == rangeEnd {
        readBuf := fetched;
        rangeStart, rangeEnd := 0, |fetched|;
        assert Value().pending == fetched;
      }
      if lineRead.Some? && lineRead.value > |line| { return Panic; }
      var sent := RoundsOn(t);
      EndRests(t, Value());
      r := Sent(sent > 0);
    }

    /** A drain and the poll after it: that panics exactly if the drained reader's slice
        fails, and otherwise polls the drained reader. */
    method DrainThenPoll(t: Term, fetched: seq<Byte>) returns (r: Outcome)
      requires Resting()
      modifies this
      ensures r.Panic? <==> SliceFails(Drained(old(Value())))
      ensures r.Sent? ==> Resting() && Value() == PollAll(t, Begin(Drained(old(Value())), false, fetched))
    {
      DrainInput();
      r := Poll(t, fetched);
    }

    /** A reader takes what fits from the front of the ring. */
    method Pop(n: nat) returns (bytes: seq<Byte>)
      requires Valid()
      modifies this`ring
      ensures Valid() && bytes + ring == old(ring) && |bytes| == Min(n, |old(ring)|)
    {
      var k := if n < |ring| then n else |ring|;
      bytes := ring[..k];
      ring := ring[k..];
    }

    /** The closure of `LineDiscipline::read`: `got` grows over the polls of one call
        until it holds at least `vmin` bytes, and never more than were asked for. */
    method ReadMore(got: seq<Byte>, want: nat, vmin: nat) returns (got': seq<Byte>, done: bool)
      requires Valid() && |got| <= want
      modifies this`ring
      ensures Valid() && got' + ring == got + old(ring)
      ensures |got| <= |got'| <= want && (|got'| < want ==> ring == [])
      ensures done <==> |got'| >= vmin
    {
      var bytes := Pop(want - |got|);
      got' := got + bytes;
      done := |got'| >= vmin;
    }
  }
}
