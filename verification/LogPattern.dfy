/** The compiler of log patterns: `%letters` runs with separators or brackets become a list of items.

    Two cursors walk the pattern. `i` stands on the header of the current run, `j` looks for its end. */
module LogPattern {
  import opened Wrappers

  const HEADER: char := '%'

  predicate IsLetter(c: char) {
    'a' <= c <= 'z' || 'A' <= c <= 'Z'
  }

  /** The commands are the ASCII letters, and the header is a per cent sign. */
  lemma LettersExactly(c: char)
    ensures IsLetter(c) <==> 65 <= c as int <= 90 || 97 <= c as int <= 122
    ensures c == HEADER <==> c as int == 37
  {
  }

  /** A recorded character: a command, or one that is in the wrong place. */
  datatype Entry = Legal(c: char) | Lacking(c: char) | Unmatched(c: char)

  datatype Item =
    | FileName | ThreadName | ThreadId | CoroutineId | Elapsed | Time | Tab | NewLine | Level | LoggerName
    | LineNumber | Content | FunctionName
    | BadCommand   // prints "cmd unlegal!"
    | BadText      // prints "unknow"

  /** `PastEnd`: the search for the next header ran past the terminating zero of the pattern. */
  datatype Result<T> = Done(value: T) | PastEnd

  /* ---------- the inner loop ---------- */

  datatype Cursor = Cursor(j: nat, effect: string, temp: string, matched: bool, open: nat)

  predicate InRange(p: string, i: nat, s: Cursor) {
    i < s.j <= |p| && s.open <= s.j
  }

  function Inner(p: string, i: nat, s: Cursor): (r: Cursor)
    requires InRange(p, i, s)
    ensures InRange(p, i, r) && s.j <= r.j && (s.j < |p| ==> s.j < r.j)
    decreases |p| - s.j
  {
    if s.j == |p| then s
    else if !IsLetter(p[s.j]) && p[s.j] != '(' && p[s.j] != ')' then
      s.(temp := s.temp + p[i + 1..s.j], j := s.j + 1)
    else if s.matched then
      var s1 := if p[s.j] == '(' then s.(matched := false, temp := s.temp + p[i + 1..s.j], open := s.j + 1) else s;
      var s2 := if s.j == |p| - 1 && s1.effect == "" then s1.(effect := p[i + 1..]) else s1;
      Inner(p, i, s2.(j := s.j + 1))
    else if p[s.j] == ')' then
      s.(temp := s.temp + p[s.open..s.j], matched := true, j := s.j + 1)
    else Inner(p, i, s.(j := s.j + 1))
  }

  function Start(i: nat): Cursor {
    Cursor(i + 1, "", "", true, 0)
  }

  /* ---------- the outer loop ---------- */

  /** The next header at or after `i`, or the length of the pattern. */
  function NextHeader(p: string, i: nat): (k: nat)
    requires i <= |p|
    ensures i <= k <= |p| && (k < |p| ==> p[k] == HEADER)
    ensures forall x :: i <= x < k ==> p[x] != HEADER
    decreases |p| - i
  {
    if i == |p| || p[i] == HEADER then i else NextHeader(p, i + 1)
  }

  function LegalAll(s: string): seq<Entry> {
    seq(|s|, x requires 0 <= x < |s| => Legal(s[x]))
  }

  function LackingAll(s: string): seq<Entry> {
    seq(|s|, x requires 0 <= x < |s| => Lacking(s[x]))
  }

  function UnmatchedAll(s: string): seq<Entry> {
    seq(|s|, x requires 0 <= x < |s| => Unmatched(s[x]))
  }

  /** What a finished run contributes; nothing when it ends with the pattern at a separator or bracket. */
  function Effect(p: string, s: Cursor): string {
    if s.j != |p| && s.matched then s.effect + s.temp else s.effect
  }

  function Outer(p: string, i: nat, v: seq<Entry>): Result<seq<Entry>>
    requires i <= |p|
    decreases |p| - i
  {
    if i == |p| then Done(v)
    else
      var k := NextHeader(p, i);
      if k == |p| then PastEnd
      else
        var stray, s := p[i..k], Inner(p, k, Start(k));
        if !s.matched then Done(v + LackingAll(stray) + UnmatchedAll(s.temp))
        else if stray != "" then Done(v + LackingAll(stray))
        else Outer(p, s.j, v + LegalAll(Effect(p, s)))
  }

  /* ---------- entries to items ---------- */

  const ORDERS: map<char, nat> := map[
    'f' := 0, 'N' := 1, 't' := 2, 'c' := 3, 's' := 4, 'C' := 5, 'T' := 6,
    'e' := 7, 'L' := 8, 'R' := 9, 'l' := 10, 'S' := 11, 'F' := 12
  ]

  /** The formatter with that number. */
  function Formatter(order: nat): Item {
    match order
    case 0 => FileName
    case 1 => ThreadName
    case 2 => ThreadId
    case 3 => CoroutineId
    case 4 => Elapsed
    case 5 => Time
    case 6 => Tab
    case 7 => NewLine
    case 8 => Level
    case 9 => LoggerName
    case 10 => LineNumber
    case 11 => Content
    case _ => FunctionName
  }

  function ItemOf(e: Entry): Item {
    if !e.Legal? then BadText else if e.c in ORDERS then Formatter(ORDERS[e.c]) else BadCommand
  }

  function Items(v: seq<Entry>): seq<Item> {
    seq(|v|, x requires 0 <= x < |v| => ItemOf(v[x]))
  }

  /** Each formatter belongs to one letter, and every other character makes an error item. */
  lemma FormatterExactly(c: char)
    ensures var i := ItemOf(Legal(c));
            && (i == FileName <==> c == 'f') && (i == ThreadName <==> c == 'N') && (i == ThreadId <==> c == 't')
            && (i == CoroutineId <==> c == 'c') && (i == Elapsed <==> c == 's') && (i == Time <==> c == 'C')
            && (i == Tab <==> c == 'T') && (i == NewLine <==> c == 'e') && (i == Level <==> c == 'L')
            && (i == LoggerName <==> c == 'R') && (i == LineNumber <==> c == 'l') && (i == Content <==> c == 'S')
            && (i == FunctionName <==> c == 'F') && (i == BadCommand <==> c !in "fNtcsCTeLRlSF")
    ensures ItemOf(Lacking(c)) == BadText && ItemOf(Unmatched(c)) == BadText
  {
  }

  /** One item for each command. */
  function Formatters(cs: string): seq<Item> {
    seq(|cs|, x requires 0 <= x < |cs| => ItemOf(Legal(cs[x])))
  }

  function Errors(n: nat): seq<Item> {
    seq(n, _ => BadText)
  }

  lemma ItemsOf(cs: string, stray: string, lost: string)
    ensures Items(LegalAll(cs) + LackingAll(stray) + UnmatchedAll(lost))
            == Formatters(cs) + Errors(|stray|) + Errors(|lost|)
    ensures Items(LegalAll(cs) + LackingAll(stray)) == Formatters(cs) + Errors(|stray|)
    ensures Items(LegalAll(cs) + UnmatchedAll(lost)) == Formatters(cs) + Errors(|lost|)
    ensures Items(LegalAll(cs)) == Formatters(cs)
  {
  }

  /** The items of a pattern. */
  function Explained(p: string): Result<seq<Item>> {
    match Outer(p, 0, [])
    case Done(v) => Done(Items(v))
    case PastEnd => PastEnd
  }

  /** `explain`. */
  method Explain(p: string) returns (r: Result<seq<Item>>)
    ensures r == Explained(p)
  {
    hide Inner, LackingAll, UnmatchedAll, LegalAll, Items;
    var vectors: seq<Entry> := [];
    var i := 0;
    var unlegal := "";
    while i < |p|
      invariant i <= |p| && unlegal == ""
      invariant Outer(p, i, vectors) == Outer(p, 0, [])
    {
      ghost var from := i;
      while i < |p| && p[i] != HEADER
        invariant from <= i <= |p| && unlegal == p[from..i]
        invariant NextHeader(p, i) == NextHeader(p, from)
      {
        unlegal := unlegal + [p[i]];
        i := i + 1;
      }
      if i == |p| {
        return PastEnd;
      }
      var s := ScanRun(p, i);
      var effect := s.effect;
      if s.j != |p| && s.matched {
        effect := effect + s.temp;
      }
      if !s.matched {
        vectors := vectors + LackingAll(unlegal) + UnmatchedAll(s.temp);
        unlegal := "";
        return Done(Items(vectors));
      }
      if unlegal != "" {
        vectors := vectors + LackingAll(unlegal);
        unlegal := "";
        return Done(Items(vectors));
      }
      vectors := vectors + LegalAll(effect);
      i := s.j;
    }
    return Done(Items(vectors));
  }

  /** The inner loop of `explain`. */
  method ScanRun(p: string, i: nat) returns (s: Cursor)
    requires i < |p|
    ensures s == Inner(p, i, Start(i))
  {
    var j, effect, temp, matched, open := i + 1, "", "", true, 0;
    while j < |p|
      invariant InRange(p, i, Cursor(j, effect, temp, matched, open))
      invariant Inner(p, i, Cursor(j, effect, temp, matched, open)) == Inner(p, i, Start(i))
    {
      if !IsLetter(p[j]) && p[j] != '(' && p[j] != ')' {
        return Cursor(j + 1, effect, temp + p[i + 1..j], matched, open);
      }
      if matched {
        if p[j] == '(' {
          matched := false;
          temp := temp + p[i + 1..j];
          open := j + 1;
        }
        if j == |p| - 1 {
          if effect == "" {
            effect := p[i + 1..];
          }
        }
      } else {
        if p[j] == ')' {
          return Cursor(j + 1, effect, temp + p[open..j], true, open);
        }
      }
      j := j + 1;
    }
    return Cursor(j, effect, temp, matched, open);
  }

  /* ---------- patterns in the intended form ---------- */

  datatype Segment =
    | Plain(letters: string, sep: char)
    | Bracketed(letters: string, inner: string)

  /** Characters the inner loop passes over: letters, and the bracket that means nothing where it stands,
      which is a closing one outside of brackets and an opening one inside them. */
  predicate Skipped(c: char, outside: bool) {
    IsLetter(c) || c == if outside then ')' else '('
  }

  predicate AllSkipped(s: string, outside: bool) {
    forall x :: 0 <= x < |s| ==> Skipped(s[x], outside)
  }

  predicate WellFormed(g: Segment) {
    match g
    case Plain(letters, sep) => AllSkipped(letters, true) && !IsLetter(sep) && sep != '(' && sep != ')'
    case Bracketed(letters, inner) => AllSkipped(letters, true) && AllSkipped(inner, false)
  }

  function Text(g: Segment): string {
    match g
    case Plain(letters, sep) => ['%'] + letters + [sep]
    case Bracketed(letters, inner) => ['%'] + letters + ['('] + inner + [')']
  }

  function Commands(g: Segment): string {
    match g
    case Plain(letters, sep) => letters
    case Bracketed(letters, inner) => letters + inner
  }

  function Pattern(gs: seq<Segment>, last: string): string {
    if gs == [] then ['%'] + last else Text(gs[0]) + Pattern(gs[1..], last)
  }

  function AllCommands(gs: seq<Segment>, last: string): string {
    if gs == [] then last else Commands(gs[0]) + AllCommands(gs[1..], last)
  }

  /** They do not stop the inner loop. */
  lemma {:induction false} OverLetters(p: string, i: nat, s: Cursor, n: nat)
    requires InRange(p, i, s) && s.j + n < |p| && AllSkipped(p[s.j..s.j + n], s.matched)
    ensures Inner(p, i, s) == Inner(p, i, s.(j := s.j + n))
    decreases n
  {
    if n > 0 {
      assert Skipped(p[s.j..s.j + n][0], s.matched);
      assert p[s.j + 1..s.j + n] == p[s.j..s.j + n][1..];
      OverLetters(p, i, s.(j := s.j + 1), n - 1);
    }
  }

  /** `p` reads `t` at `i`. */
  predicate Reads(p: string, i: nat, t: string) {
    i + |t| <= |p| && p[i..i + |t|] == t
  }

  lemma ReadsParts(p: string, i: nat, a: string, b: string)
    requires Reads(p, i, a + b)
    ensures Reads(p, i, a) && Reads(p, i + |a|, b)
  {
    var t := p[i..i + |a + b|];
    assert p[i..i + |a|] == t[..|a|] && p[i + |a|..i + |a| + |b|] == t[|a|..];
  }

  lemma PlainRun(p: string, i: nat, g: Segment)
    requires g.Plain? && WellFormed(g) && Reads(p, i, Text(g))
    ensures Inner(p, i, Start(i)) == Cursor(i + |Text(g)|, "", g.letters, true, 0)
  {
    var n := |g.letters|;
    ReadsParts(p, i, [HEADER], g.letters + [g.sep]);
    assert Text(g) == [HEADER] + (g.letters + [g.sep]);
    ReadsParts(p, i + 1, g.letters, [g.sep]);
    OverLetters(p, i, Start(i), n);
    assert p[i + 1 + n..i + 2 + n][0] == g.sep;
  }

  lemma BracketedParts(p: string, i: nat, letters: string, inner: string)
    requires Reads(p, i, [HEADER] + letters + ['('] + inner + [')'])
    ensures Reads(p, i, [HEADER]) && Reads(p, i + 1, letters) && Reads(p, i + 1 + |letters|, ['('])
    ensures Reads(p, i + 2 + |letters|, inner) && Reads(p, i + 2 + |letters| + |inner|, [')'])
  {
    ReadsParts(p, i, [HEADER] + letters + ['('] + inner, [')']);
    ReadsParts(p, i, [HEADER] + letters + ['('], inner);
    ReadsParts(p, i, [HEADER] + letters, ['(']);
    ReadsParts(p, i, [HEADER], letters);
  }

  /** One turn of the inner loop at an opening bracket that is not the last character. */
  lemma AtOpen(p: string, i: nat, s: Cursor, letters: string)
    requires InRange(p, i, s) && Reads(p, s.j, ['(']) && s.j + 1 < |p| && s.matched
    requires i + 1 + |letters| == s.j && Reads(p, i + 1, letters)
    ensures Inner(p, i, s) == Inner(p, i, Cursor(s.j + 1, s.effect, s.temp + letters, false, s.j + 1))
  {
  }

  lemma AtOpenLast(p: string, i: nat, s: Cursor, letters: string)
    requires InRange(p, i, s) && Reads(p, s.j, ['(']) && s.j + 1 == |p| && s.matched
    requires i + 1 + |letters| == s.j && Reads(p, i + 1, letters)
    ensures !Inner(p, i, s).matched && Inner(p, i, s).temp == s.temp + letters
  {
  }

  lemma AtClose(p: string, i: nat, s: Cursor, inner: string)
    requires InRange(p, i, s) && Reads(p, s.j, [')']) && !s.matched
    requires s.open + |inner| == s.j && Reads(p, s.open, inner)
    ensures Inner(p, i, s) == Cursor(s.j + 1, s.effect, s.temp + inner, true, s.open)
  {
  }

  /** From the header to behind an opening bracket. */
  lemma ToOpen(p: string, i: nat, letters: string)
    requires i + 2 + |letters| < |p| && AllSkipped(letters, true)
    requires Reads(p, i + 1, letters) && Reads(p, i + 1 + |letters|, ['('])
    ensures var k := i + 2 + |letters|; Inner(p, i, Start(i)) == Inner(p, i, Cursor(k, "", letters, false, k))
  {
    hide Inner;
    var n := |letters|;
    OverLetters(p, i, Start(i), n);
    AtOpen(p, i, Start(i).(j := i + 1 + n), letters);
    assert "" + letters == letters;
  }

  lemma BracketedRun(p: string, i: nat, letters: string, inner: string)
    requires AllSkipped(letters, true) && AllSkipped(inner, false)
    requires Reads(p, i, [HEADER] + letters + ['('] + inner + [')'])
    ensures var s := Inner(p, i, Start(i));
            s.j == i + 3 + |letters| + |inner| && s.effect == "" && s.temp == letters + inner && s.matched
  {
    hide Inner;
    var n, m := |letters|, |inner|;
    BracketedParts(p, i, letters, inner);
    ToOpen(p, i, letters);
    var s := Cursor(i + 2 + n, "", letters, false, i + 2 + n);
    OverLetters(p, i, s, m);
    AtClose(p, i, s.(j := i + 2 + n + m), inner);
  }

  /** The run of a segment ends right behind it and has its letters in order. */
  lemma SegmentRun(p: string, i: nat, g: Segment)
    requires WellFormed(g) && Reads(p, i, Text(g))
    ensures var s := Inner(p, i, Start(i));
            s.j == i + |Text(g)| && s.effect == "" && s.temp == Commands(g) && s.matched
  {
    hide Inner;
    if g.Plain? { PlainRun(p, i, g); } else { BracketedRun(p, i, g.letters, g.inner); }
  }

  /** The last run takes its letters when it reaches the end of the pattern. */
  lemma {:induction false} LastRun(p: string, i: nat, last: string, k: nat)
    requires AllSkipped(last, true) && Reads(p, i, [HEADER] + last) && i + 1 + |last| == |p| && k <= |last|
    ensures var s := Inner(p, i, Cursor(i + 1 + k, if k == |last| then last else "", "", true, 0));
            s.j == |p| && s.effect == last && s.temp == "" && s.matched
    decreases |last| - k
  {
    if k < |last| {
      ReadsParts(p, i, [HEADER], last);
      assert p[i + 1 + k] == p[i + 1..i + 1 + |last|][k] == last[k];
      assert Skipped(last[k], true);
      assert p[i + 1..] == p[i + 1..i + 1 + |last|];
      LastRun(p, i, last, k + 1);
    }
  }

  predicate AllWellFormed(gs: seq<Segment>) {
    forall x :: 0 <= x < |gs| ==> WellFormed(gs[x])
  }

  /** One turn of the outer loop at a segment: its letters are taken, unless the pattern ends with it. */
  lemma SegmentStep(p: string, i: nat, g: Segment, v: seq<Entry>)
    requires WellFormed(g) && Reads(p, i, Text(g))
    ensures i < i + |Text(g)| <= |p|
    ensures Outer(p, i, v)
            == if i + |Text(g)| < |p| then Outer(p, i + |Text(g)|, v + LegalAll(Commands(g))) else Done(v)
  {
    hide Inner, Text, Commands;
    SegmentRun(p, i, g);
    TextHeader(g);
    AtHeader(p, i, Text(g)[1..]);
    assert "" + Commands(g) == Commands(g);
    if i + |Text(g)| == |p| {
      assert v + LegalAll("") == v;
    }
  }

  lemma TextHeader(g: Segment)
    ensures Text(g) != "" && Text(g) == [HEADER] + Text(g)[1..]
  {
  }

  lemma LastStep(p: string, i: nat, last: string, v: seq<Entry>)
    requires AllSkipped(last, true) && Reads(p, i, [HEADER] + last) && i + 1 + |last| == |p|
    ensures Outer(p, i, v) == Done(v + LegalAll(last))
  {
    hide Inner;
    AtHeader(p, i, last);
    LastRun(p, i, last, 0);
  }

  lemma LegalAppend(v: seq<Entry>, a: string, b: string)
    ensures v + LegalAll(a) + LegalAll(b) == v + LegalAll(a + b)
  {
  }

  /** For every pattern of segments that ends with a run of letters, the entries are its letters, one
      each and in order. */
  lemma {:induction false} PatternEntries(p: string, i: nat, gs: seq<Segment>, last: string, v: seq<Entry>)
    requires AllWellFormed(gs) && AllSkipped(last, true)
    requires Reads(p, i, Pattern(gs, last)) && i + |Pattern(gs, last)| == |p|
    ensures Outer(p, i, v) == Done(v + LegalAll(AllCommands(gs, last)))
    decreases |gs|
  {
    hide Outer, LegalAll, Text, Commands, Reads;
    if gs == [] {
      LastStep(p, i, last, v);
    } else {
      var g, rest := gs[0], Pattern(gs[1..], last);
      PatternNotEmpty(gs[1..], last);
      ReadsParts(p, i, Text(g), rest);
      SegmentStep(p, i, g, v);
      PatternEntries(p, i + |Text(g)|, gs[1..], last, v + LegalAll(Commands(g)));
      LegalAppend(v, Commands(g), AllCommands(gs[1..], last));
    }
  }

  lemma PatternNotEmpty(gs: seq<Segment>, last: string)
    ensures |Pattern(gs, last)| > 0
  {
  }

  lemma AtHeader(p: string, i: nat, t: string)
    requires Reads(p, i, [HEADER] + t)
    ensures i < |p| && NextHeader(p, i) == i && p[i..i] == ""
  {
  }

  /** `explain` on a pattern in the intended form: one item for each letter, in order. */
  lemma PatternItems(gs: seq<Segment>, last: string)
    requires AllWellFormed(gs) && AllSkipped(last, true)
    ensures Explained(Pattern(gs, last)) == Done(Formatters(AllCommands(gs, last)))
  {
    var p, cs := Pattern(gs, last), AllCommands(gs, last);
    assert p[0..0 + |p|] == p;
    PatternEntries(p, 0, gs, last, []);
    assert [] + LegalAll(cs) == LegalAll(cs);
    ItemsOf(cs, "", "");
  }

  /* ---------- patterns in other forms ---------- */

  function Texts(gs: seq<Segment>): string {
    if gs == [] then "" else Text(gs[0]) + Texts(gs[1..])
  }

  function SegmentCommands(gs: seq<Segment>): string {
    if gs == [] then "" else Commands(gs[0]) + SegmentCommands(gs[1..])
  }

  /** Segments in front of anything contribute their letters and leave the cursor behind them. */
  lemma {:induction false} OverSegments(p: string, i: nat, gs: seq<Segment>, v: seq<Entry>)
    requires AllWellFormed(gs) && Reads(p, i, Texts(gs)) && i + |Texts(gs)| < |p|
    ensures Outer(p, i, v) == Outer(p, i + |Texts(gs)|, v + LegalAll(SegmentCommands(gs)))
    decreases |gs|
  {
    hide Outer, LegalAll, Text, Commands, Reads;
    if gs == [] {
      LegalNone(v);
    } else {
      var g := gs[0];
      ReadsParts(p, i, Text(g), Texts(gs[1..]));
      SegmentStep(p, i, g, v);
      OverSegments(p, i + |Text(g)|, gs[1..], v + LegalAll(Commands(g)));
      LegalAppend(v, Commands(g), SegmentCommands(gs[1..]));
    }
  }

  lemma LegalNone(v: seq<Entry>)
    ensures v + LegalAll("") == v && v + LackingAll("") == v && [] + v == v
  {
  }

  lemma ReadsConcat(a: string, b: string)
    ensures Reads(a + b, 0, a) && Reads(a + b, |a|, b)
  {
  }

  /** The same from the start of a pattern that begins with the segments. */
  lemma FromSegments(gs: seq<Segment>, rest: string)
    requires AllWellFormed(gs) && rest != ""
    ensures Reads(Texts(gs) + rest, |Texts(gs)|, rest)
    ensures Outer(Texts(gs) + rest, 0, []) == Outer(Texts(gs) + rest, |Texts(gs)|, LegalAll(SegmentCommands(gs)))
  {
    hide Outer, Reads, LegalAll, SegmentCommands, Texts;
    ReadsConcat(Texts(gs), rest);
    OverSegments(Texts(gs) + rest, 0, gs, []);
    LegalNone(LegalAll(SegmentCommands(gs)));
  }

  /** A pattern that ends with a separator or a closing bracket loses the letters of its last segment. */
  lemma LastSegmentLost(gs: seq<Segment>, g: Segment)
    requires AllWellFormed(gs) && WellFormed(g)
    ensures Explained(Texts(gs) + Text(g)) == Done(Formatters(SegmentCommands(gs)))
  {
    hide Outer, Text, LegalAll, Reads, Formatters, Items;
    ItemsOf(SegmentCommands(gs), "", "");
    TextHeader(g);
    FromSegments(gs, Text(g));
    SegmentStep(Texts(gs) + Text(g), |Texts(gs)|, g, LegalAll(SegmentCommands(gs)));
  }

  /** Text in front of a header becomes one error item for each character, and ends the list: nothing
      of the run behind it is used. */
  lemma StrayText(gs: seq<Segment>, stray: string, hs: seq<Segment>, last: string)
    requires AllWellFormed(gs) && AllWellFormed(hs) && AllSkipped(last, true) && stray != "" && HEADER !in stray
    ensures Explained(Texts(gs) + (stray + Pattern(hs, last)))
            == Done(Formatters(SegmentCommands(gs)) + Errors(|stray|))
  {
    hide Text, LegalAll, LackingAll, Inner, Outer, Formatters, Items, Errors;
    hide SegmentCommands, AllWellFormed, AllSkipped, Pattern, Texts;
    ItemsOf(SegmentCommands(gs), stray, "");
    var q := Pattern(hs, last);
    var p, i := Texts(gs) + (stray + q), |Texts(gs)|;
    var k := i + |stray|;
    FromSegments(gs, stray + q);
    ReadsParts(p, i, stray, q);
    PatternNotEmpty(hs, last);
    RunMatched(p, k, hs, last);
    HeaderAfter(p, i, k);
    StrayStep(p, i, k, LegalAll(SegmentCommands(gs)));
  }

  lemma StrayStep(p: string, i: nat, k: nat, v: seq<Entry>)
    requires i < k < |p| && NextHeader(p, i) == k && Inner(p, k, Start(k)).matched
    ensures Outer(p, i, v) == Done(v + LackingAll(p[i..k]))
  {
  }

  lemma UnmatchedStep(p: string, i: nat, v: seq<Entry>)
    requires i < |p| && p[i] == HEADER && !Inner(p, i, Start(i)).matched
    ensures Outer(p, i, v) == Done(v + UnmatchedAll(Inner(p, i, Start(i)).temp))
  {
    assert p[i..i] == "";
    LegalNone(v);
  }

  /** The first run of a pattern in the intended form has its brackets closed. */
  lemma RunMatched(p: string, k: nat, hs: seq<Segment>, last: string)
    requires AllWellFormed(hs) && AllSkipped(last, true)
    requires Reads(p, k, Pattern(hs, last)) && k + |Pattern(hs, last)| == |p|
    ensures k < |p| && p[k] == HEADER && Inner(p, k, Start(k)).matched
  {
    hide Inner, Text;
    if hs == [] {
      AtHeader(p, k, last);
      LastRun(p, k, last, 0);
    } else {
      ReadsParts(p, k, Text(hs[0]), Pattern(hs[1..], last));
      TextHeader(hs[0]);
      AtHeader(p, k, Text(hs[0])[1..]);
      SegmentRun(p, k, hs[0]);
    }
  }

  lemma HeaderAfter(p: string, i: nat, k: nat)
    requires i <= k < |p| && HEADER !in p[i..k] && p[k] == HEADER
    ensures NextHeader(p, i) == k
  {
  }

  /** A bracket that is never closed turns the letters in front of it into error items and drops what is
      inside it. */
  lemma UnclosedBracket(gs: seq<Segment>, letters: string, inner: string)
    requires AllWellFormed(gs) && AllSkipped(letters, true) && AllSkipped(inner, false)
    ensures Explained(Texts(gs) + ([HEADER] + letters + ['('] + inner))
            == Done(Formatters(SegmentCommands(gs)) + Errors(|letters|))
  {
    hide LegalAll, UnmatchedAll, Inner, Outer, Formatters, Items, Errors;
    ItemsOf(SegmentCommands(gs), "", letters);
    var t := [HEADER] + letters + ['('] + inner;
    var p, i := Texts(gs) + t, |Texts(gs)|;
    FromSegments(gs, t);
    UnclosedRun(p, i, letters, inner);
    UnmatchedStep(p, i, LegalAll(SegmentCommands(gs)));
  }

  lemma UnclosedRun(p: string, i: nat, letters: string, inner: string)
    requires AllSkipped(letters, true) && AllSkipped(inner, false)
    requires Reads(p, i, [HEADER] + letters + ['('] + inner) && i + 2 + |letters| + |inner| == |p|
    ensures p[i] == HEADER
    ensures var s := Inner(p, i, Start(i)); !s.matched && s.temp == letters
  {
    hide Inner, Reads;
    var n := |letters|;
    UnclosedParts(p, i, letters, inner);
    if inner == "" {
      OverLetters(p, i, Start(i), n);
      AtOpenLast(p, i, Start(i).(j := i + 1 + n), letters);
      assert "" + letters == letters;
    } else {
      ToOpen(p, i, letters);
      ToTheEnd(p, i, Cursor(i + 2 + n, "", letters, false, i + 2 + n));
    }
  }

  lemma UnclosedParts(p: string, i: nat, letters: string, inner: string)
    requires AllSkipped(letters, true) && AllSkipped(inner, false)
    requires Reads(p, i, [HEADER] + letters + ['('] + inner) && i + 2 + |letters| + |inner| == |p|
    ensures p[i] == HEADER
    ensures Reads(p, i + 1, letters) && AllSkipped(p[i + 1..i + 1 + |letters|], true)
    ensures Reads(p, i + 1 + |letters|, ['(']) && AllSkipped(p[i + 2 + |letters|..], false)
  {
    ReadsParts(p, i, [HEADER] + letters + ['('], inner);
    ReadsParts(p, i, [HEADER] + letters, ['(']);
    ReadsParts(p, i, [HEADER], letters);
    assert p[i..i + 1][0] == HEADER;
    assert p[i + 2 + |letters|..] == inner;
  }

  lemma {:induction false} ToTheEnd(p: string, i: nat, s: Cursor)
    requires InRange(p, i, s) && !s.matched && AllSkipped(p[s.j..], false)
    ensures Inner(p, i, s) == s.(j := |p|)
    decreases |p| - s.j
  {
    if s.j < |p| {
      assert Skipped(p[s.j..][0], false);
      assert p[s.j + 1..] == p[s.j..][1..];
      ToTheEnd(p, i, s.(j := s.j + 1));
    }
  }

  /* ---------- reading past the end ---------- */

  /** How many characters the inner loop passes over. */
  function Skip(t: string, outside: bool): (n: nat)
    ensures n <= |t| && AllSkipped(t[..n], outside)
    ensures n < |t| ==> !Skipped(t[n], outside)
  {
    if t == "" || !Skipped(t[0], outside) then 0
    else
      var n := Skip(t[1..], outside);
      assert t[..n + 1] == [t[0]] + t[1..][..n];
      n + 1
  }

  /** The inside of a bracket, if it is closed. */
  function Bracket(t: string): Option<string> {
    var m := Skip(t, false);
    if m == |t| || t[m] != ')' then None else Some(t[..m])
  }

  function AfterHeader(t: string): Option<Segment> {
    var n := Skip(t, true);
    if n == |t| then None
    else if t[n] != '(' then Some(Plain(t[..n], t[n]))
    else
      var inner := Bracket(t[n + 1..]);
      if inner.None? then None else Some(Bracketed(t[..n], inner.value))
  }

  /** The segment the text begins with, if it begins with one. */
  function FirstSegment(t: string): Option<Segment> {
    if t == "" || t[0] != HEADER then None else AfterHeader(t[1..])
  }

  lemma BracketFits(t: string)
    ensures var r := Bracket(t); r.Some? ==> AllSkipped(r.value, false) && r.value + [')'] <= t
  {
  }

  lemma AfterHeaderFits(t: string)
    ensures var r := AfterHeader(t); r.Some? ==> WellFormed(r.value) && Text(r.value) <= [HEADER] + t
  {
    hide Bracket, AllSkipped;
    var n := Skip(t, true);
    if n < |t| {
      assert t == t[..n] + [t[n]] + t[n + 1..];
      BracketFits(t[n + 1..]);
      if t[n] == '(' && Bracket(t[n + 1..]).Some? {
        PrefixBehind([HEADER] + t[..n] + ['('], Bracket(t[n + 1..]).value + [')'], t[n + 1..]);
        assert [HEADER] + t == [HEADER] + t[..n] + ['('] + t[n + 1..];
      }
    }
  }

  lemma PrefixBehind(a: string, b: string, c: string)
    requires b <= c
    ensures a + b <= a + c
  {
  }

  lemma SegmentFits(t: string)
    ensures var r := FirstSegment(t); r.Some? ==> WellFormed(r.value) && "" < Text(r.value) <= t
  {
    if t != "" && t[0] == HEADER {
      hide AfterHeader;
      AfterHeaderFits(t[1..]);
      assert t == [HEADER] + t[1..];
    }
  }

  datatype Parsed = Parsed(segments: seq<Segment>, tail: string)

  /** The segments a pattern begins with, as many as there are, and what is behind them. */
  function Parse(t: string): Parsed
    decreases |t|
  {
    SegmentFits(t);
    var g := FirstSegment(t);
    if g.None? then Parsed([], t)
    else
      var r := Parse(t[|Text(g.value)|..]);
      Parsed([g.value] + r.segments, r.tail)
  }

  lemma {:induction false} ParseFits(t: string)
    ensures var r := Parse(t);
            t == Texts(r.segments) + r.tail && AllWellFormed(r.segments) && FirstSegment(r.tail).None?
    decreases |t|
  {
    hide FirstSegment, WellFormed, Text, Texts, AllWellFormed;
    SegmentFits(t);
    var g := FirstSegment(t);
    if g.None? {
      NoTexts(t);
    } else {
      var rest := t[|Text(g.value)|..];
      ParseFits(rest);
      OneMore(g.value, Parse(rest).segments, Parse(rest).tail);
      assert t == Text(g.value) + rest;
    }
  }

  lemma NoTexts(t: string)
    ensures Texts([]) + t == t && AllWellFormed([])
  {
  }

  lemma OneMore(g: Segment, gs: seq<Segment>, tail: string)
    requires WellFormed(g) && AllWellFormed(gs)
    ensures Texts([g] + gs) + tail == Text(g) + (Texts(gs) + tail) && AllWellFormed([g] + gs)
  {
  }

  /** Text without a header behind any segments is read past its end. */
  lemma TailWithoutHeader(gs: seq<Segment>, tail: string)
    requires AllWellFormed(gs) && tail != "" && HEADER !in tail
    ensures Explained(Texts(gs) + tail) == PastEnd
  {
    hide Texts, Inner;
    var p, i := Texts(gs) + tail, |Texts(gs)|;
    FromSegments(gs, tail);
    NoneAhead(p, i, tail);
  }

  lemma {:induction false} NoneAhead(p: string, i: nat, tail: string)
    requires Reads(p, i, tail) && i + |tail| == |p| && HEADER !in tail
    ensures NextHeader(p, i) == |p|
  {
  }

  /* ---------- every pattern ---------- */

  /** What a run that leaves a bracket open calls unmatched: the letters in front of the bracket; when a
      separator inside it ends the run, these letters once more and the text up to the separator. */
  function Lost(t: string): Option<string> {
    var n := Skip(t, true);
    if n == |t| || t[n] != '(' then None
    else
      var m := Skip(t[n + 1..], false);
      if n + 1 + m == |t| then Some(t[..n])
      else if t[n + 1 + m] == ')' then None
      else Some(t[..n] + t[..n + 1 + m])
  }

  /** The items of a pattern, read off its parts: the segments it begins with, the text behind them and the
      run at the header in that text. */
  function Answer(p: string): Result<seq<Item>> {
    var q := Parse(p);
    var k := NextHeader(q.tail, 0);
    if q.tail == "" then Done(Formatters(SegmentCommands(ButLast(q.segments))))
    else if k == |q.tail| then PastEnd
    else
      var rest := q.tail[k + 1..];
      var stray, lost := Errors(k), Lost(rest);
      var items := Formatters(SegmentCommands(q.segments));
      if lost.Some? then Done(items + stray + Errors(|lost.value|))
      else if k > 0 then Done(items + stray)
      else Done(items + Formatters(rest))
  }

  function ButLast(gs: seq<Segment>): seq<Segment> {
    if gs == [] then [] else gs[..|gs| - 1]
  }

  /** `explain` on any pattern. */
  lemma ExplainExactly(p: string)
    ensures Explained(p) == Answer(p)
  {
    hide Explained, Outer, Texts, Parse, FirstSegment, Formatters, Errors, Lost;
    ParseFits(p);
    var gs, tail := Parse(p).segments, Parse(p).tail;
    if tail == "" {
      assert p == Texts(gs);
      OnlySegments(gs);
    } else if NextHeader(tail, 0) == |tail| {
      assert forall x :: 0 <= x < |tail| ==> tail[x] != HEADER;
      TailWithoutHeader(gs, tail);
    } else {
      TailExactly(gs, tail, NextHeader(tail, 0));
    }
  }

  lemma OnlySegments(gs: seq<Segment>)
    requires AllWellFormed(gs)
    ensures Explained(Texts(gs)) == Done(Formatters(SegmentCommands(ButLast(gs))))
  {
    hide Text, Inner, Formatters, SegmentCommands;
    if gs == [] {
      assert Items([]) == Formatters(SegmentCommands([])) by { NoCommands(); }
    } else {
      var n := |gs| - 1;
      TextsLast(gs);
      LastSegmentLost(gs[..n], gs[n]);
    }
  }

  lemma NoCommands()
    ensures Items([]) == Formatters(SegmentCommands([]))
  {
  }

  lemma {:induction false} TextsLast(gs: seq<Segment>)
    requires gs != []
    ensures Texts(gs) == Texts(gs[..|gs| - 1]) + Text(gs[|gs| - 1])
  {
    hide Text;
    if |gs| > 1 {
      TextsLast(gs[1..]);
      assert gs[1..][..|gs| - 2] == gs[..|gs| - 1][1..];
    }
  }

  /** A text with a header at `k`, behind any segments. */
  lemma TailExactly(gs: seq<Segment>, tail: string, k: nat)
    requires AllWellFormed(gs) && FirstSegment(tail).None?
    requires k < |tail| && NextHeader(tail, 0) == k
    ensures var items, lost := Formatters(SegmentCommands(gs)), Lost(tail[k + 1..]);
            Explained(Texts(gs) + tail)
            == if lost.Some? then Done(items + Errors(k) + Errors(|lost.value|))
               else if k > 0 then Done(items + Errors(k))
               else Done(items + Formatters(tail[k + 1..]))
  {
    hide Outer, Inner, Lost, Texts, Formatters, Errors, Items, LegalAll, LackingAll, UnmatchedAll, SegmentCommands;
    hide FirstSegment, AllWellFormed;
    var p, i, cs := Texts(gs) + tail, |Texts(gs)|, SegmentCommands(gs);
    var rest := tail[k + 1..];
    var lost := Lost(rest);
    FromSegments(gs, tail);
    NextHeaderIn(p, i, tail);
    assert p[i..i + k] == tail[..k] && p[i + k + 1..] == rest;
    RunExactly(p, i + k, rest);
    OuterStep(p, i, i + k, LegalAll(cs));
    ItemsOf(cs, tail[..k], if lost.Some? then lost.value else "");
    if lost.None? && k == 0 {
      NoSegment(tail);
      assert tail == [HEADER] + rest;
      LastStep(p, i, rest, LegalAll(cs));
      ItemsTwice(cs, rest);
    }
  }

  lemma ItemsTwice(cs: string, rest: string)
    ensures Items(LegalAll(cs) + LegalAll(rest)) == Formatters(cs) + Formatters(rest)
  {
  }

  lemma NextHeaderIn(p: string, i: nat, tail: string)
    requires Reads(p, i, tail) && i + |tail| == |p|
    ensures NextHeader(p, i) == i + NextHeader(tail, 0)
  {
    var k := NextHeader(tail, 0);
    assert forall x :: 0 <= x < |tail| ==> p[i + x] == tail[x];
    forall x | i <= x < i + k ensures p[x] != HEADER {
      assert tail[x - i] != HEADER;
    }
  }

  lemma OuterStep(p: string, i: nat, k: nat, v: seq<Entry>)
    requires i <= k < |p| && NextHeader(p, i) == k
    ensures var stray, s := p[i..k], Inner(p, k, Start(k));
            && (!s.matched ==> Outer(p, i, v) == Done(v + LackingAll(stray) + UnmatchedAll(s.temp)))
            && (s.matched && i < k ==> Outer(p, i, v) == Done(v + LackingAll(stray)))
  {
  }

  /** The text behind a header with no segment at it and no bracket open is all letters. */
  lemma NoSegment(t: string)
    requires t != "" && t[0] == HEADER && FirstSegment(t).None? && Lost(t[1..]).None?
    ensures AllSkipped(t[1..], true)
  {
    var u := t[1..];
    var n := Skip(u, true);
    assert u[..|u|] == u;
    if n < |u| {
      assert false;
    }
  }

  lemma LostPlain(t: string, n: nat)
    requires n == Skip(t, true) && (n == |t| || t[n] != '(')
    ensures Lost(t).None? && AllSkipped(t[..n], true)
    ensures n < |t| ==> WellFormed(Plain(t[..n], t[n]))
  {
    hide Skip;
  }

  lemma PlainMatched(p: string, i: nat, t: string, n: nat)
    requires Reads(p, i, [HEADER] + t) && i + 1 + |t| == |p|
    requires n <= |t| && AllSkipped(t[..n], true) && (n < |t| ==> WellFormed(Plain(t[..n], t[n])))
    ensures Inner(p, i, Start(i)).matched
  {
    hide Inner, Reads, AllSkipped, WellFormed, Text;
    if n == |t| {
      assert t[..n] == t;
      LastRun(p, i, t, 0);
    } else {
      var g := Plain(t[..n], t[n]);
      assert [HEADER] + t == Text(g) + t[n + 1..] by {
        PlainText(t, n);
      }
      ReadsParts(p, i, Text(g), t[n + 1..]);
      PlainRun(p, i, g);
    }
  }

  lemma PlainText(t: string, n: nat)
    requires n < |t|
    ensures [HEADER] + t == Text(Plain(t[..n], t[n])) + t[n + 1..]
  {
  }

  lemma HeaderReads(p: string, i: nat, t: string)
    requires i < |p| && p[i] == HEADER && p[i + 1..] == t
    ensures Reads(p, i, [HEADER] + t)
  {
  }

  /** Whether the run at a header leaves a bracket open, and what it then has. */
  lemma RunExactly(p: string, i: nat, t: string)
    requires i < |p| && p[i] == HEADER && p[i + 1..] == t
    ensures var s := Inner(p, i, Start(i));
            if s.matched then Lost(t) == None else Lost(t) == Some(s.temp)
  {
    hide *;
    var n := Skip(t, true);
    HeaderReads(p, i, t);
    if n < |t| && t[n] == '(' {
      BracketRun(p, i, t, n, Skip(t[n + 1..], false));
    } else {
      LostPlain(t, n);
      PlainMatched(p, i, t, n);
    }
  }

  lemma BracketText(t: string, n: nat, m: nat)
    requires n < |t| && t[n] == '(' && n + 1 + m <= |t|
    ensures var inner := t[n + 1..][..m];
            && [HEADER] + t == [HEADER] + t[..n] + ['('] + inner + t[n + 1 + m..]
            && t[..n + 1 + m] == t[..n] + ['('] + inner
  {
  }

  lemma LostAt(t: string, n: nat, m: nat)
    requires n == Skip(t, true) && n < |t| && t[n] == '(' && m == Skip(t[n + 1..], false)
    ensures AllSkipped(t[..n], true) && AllSkipped(t[n + 1..][..m], false)
    ensures Lost(t) == if n + 1 + m == |t| then Some(t[..n])
                       else if t[n + 1 + m] == ')' then None
                       else Some(t[..n] + t[..n + 1 + m])
    ensures n + 1 + m < |t| ==> !Skipped(t[n + 1 + m], false)
  {
    hide AllSkipped, Skip, Skipped;
    assert n + 1 + m < |t| ==> t[n + 1..][m] == t[n + 1 + m];
  }

  lemma BracketRun(p: string, i: nat, t: string, n: nat, m: nat)
    requires Reads(p, i, [HEADER] + t) && i + 1 + |t| == |p|
    requires n == Skip(t, true) && n < |t| && t[n] == '(' && m == Skip(t[n + 1..], false)
    ensures var s := Inner(p, i, Start(i));
            if s.matched then Lost(t) == None else Lost(t) == Some(s.temp)
  {
    LostAt(t, n, m);
    hide *;
    BracketText(t, n, m);
    var letters, inner := t[..n], t[n + 1..][..m];
    var before := [HEADER] + letters + ['('] + inner;
    if n + 1 + m == |t| {
      assert before + t[n + 1 + m..] == before;
      UnclosedRun(p, i, letters, inner);
    } else {
      var c, rest := t[n + 1 + m], t[n + 2 + m..];
      assert before + t[n + 1 + m..] == before + [c] + rest;
      BracketEnded(p, i, letters, inner, c, rest);
    }
  }

  /** A run whose bracket is closed, or ended by a separator. */
  lemma BracketEnded(p: string, i: nat, letters: string, inner: string, c: char, rest: string)
    requires AllSkipped(letters, true) && AllSkipped(inner, false) && !Skipped(c, false)
    requires Reads(p, i, [HEADER] + letters + ['('] + inner + [c] + rest)
    ensures var s := Inner(p, i, Start(i));
            if c == ')' then s.matched else !s.matched && s.temp == letters + (letters + ['('] + inner)
  {
    hide Inner, Reads, AllSkipped;
    if c == ')' {
      ReadsParts(p, i, [HEADER] + letters + ['('] + inner + [c], rest);
      BracketedRun(p, i, letters, inner);
    } else {
      OpenRun(p, i, letters, inner, c, rest);
    }
  }

  /** `explain` reads past the end of a pattern if and only if text without a header is left behind the
      segments the pattern begins with. */
  lemma PastEndExactly(p: string)
    ensures Explained(p) == PastEnd <==> Parse(p).tail != "" && HEADER !in Parse(p).tail
  {
    hide Explained, Parse, Lost, Formatters, Errors;
    ExplainExactly(p);
    var tail := Parse(p).tail;
    assert HEADER !in tail <==> NextHeader(tail, 0) == |tail|;
  }

  /** A separator inside a bracket ends the run with the bracket open. */
  lemma OpenRun(p: string, i: nat, letters: string, inner: string, sep: char, rest: string)
    requires AllSkipped(letters, true) && AllSkipped(inner, false) && !IsLetter(sep) && sep != '(' && sep != ')'
    requires Reads(p, i, [HEADER] + letters + ['('] + inner + [sep] + rest)
    ensures var s := Inner(p, i, Start(i)); !s.matched && s.temp == letters + (letters + ['('] + inner)
  {
    hide Inner, Reads;
    var n, m := |letters|, |inner|;
    ReadsParts(p, i, [HEADER] + letters + ['('] + inner + [sep], rest);
    OpenParts(p, i, letters, inner, sep);
    ToOpen(p, i, letters);
    var s := Cursor(i + 2 + n, "", letters, false, i + 2 + n);
    OverLetters(p, i, s, m);
    AtSeparator(p, i, s.(j := i + 2 + n + m), sep);
  }

  lemma OpenParts(p: string, i: nat, letters: string, inner: string, c: char)
    requires Reads(p, i, [HEADER] + letters + ['('] + inner + [c])
    ensures Reads(p, i + 1, letters) && Reads(p, i + 1 + |letters|, ['('])
    ensures Reads(p, i + 2 + |letters|, inner) && Reads(p, i + 2 + |letters| + |inner|, [c])
    ensures i + 3 + |letters| + |inner| <= |p|
    ensures p[i + 1..i + 1 + |letters|] == letters && p[i + 2 + |letters|..i + 2 + |letters| + |inner|] == inner
    ensures p[i + 1..i + 2 + |letters| + |inner|] == letters + ['('] + inner
  {
    ReadsParts(p, i, [HEADER] + letters + ['('] + inner, [c]);
    var t := p[i..i + 2 + |letters| + |inner|];
    assert p[i + 1..i + 2 + |letters| + |inner|] == t[1..];
    ReadsParts(p, i, [HEADER] + letters + ['('], inner);
    ReadsParts(p, i, [HEADER] + letters, ['(']);
    ReadsParts(p, i, [HEADER], letters);
  }

  lemma AtSeparator(p: string, i: nat, s: Cursor, sep: char)
    requires InRange(p, i, s) && Reads(p, s.j, [sep]) && !s.matched && !IsLetter(sep) && sep != '(' && sep != ')'
    ensures Inner(p, i, s) == s.(temp := s.temp + p[i + 1..s.j], j := s.j + 1)
  {
  }
}
