/** The section splitter of code_splitter.py, and the layout of the seed files it undoes. */
module Splitter {

  const BPF_MARKER: string := "// SECTION: BPF KERNEL CODE"
  const LOADER_MARKER: string := "// SECTION: USERSPACE LOADER"
  const START_MARKER: string := "// EVOLVE-BLOCK-START"
  const END_MARKER: string := "// EVOLVE-BLOCK-END"

  // ---- Python's string operations ------------------------------------------------------------

  /** `m` stands in `text` at position `i`. */
  predicate At(text: string, m: string, i: int) {
    0 <= i && i + |m| <= |text| && text[i..i + |m|] == m
  }

  /** The first position from `i` on, or -1. */
  function FindFrom(text: string, m: string, i: nat): (p: int)
    requires i <= |text|
    ensures p == -1 || (At(text, m, p) && i <= p)
    ensures forall k :: At(text, m, k) && i <= k ==> p != -1 && p <= k
    decreases |text| - i
  {
    if At(text, m, i) then i else if i == |text| then -1 else FindFrom(text, m, i + 1)
  }

  function Find(text: string, m: string): int {
    FindFrom(text, m, 0)
  }

  /** `text[lo:hi]` for bounds that are not negative. */
  function Slice(text: string, lo: nat, hi: nat): string {
    var h := if hi > |text| then |text| else hi;
    if lo > h then "" else text[lo..h]
  }

  /** The characters str.strip() removes. */
  predicate IsSpace(c: char) {
    || '\U{09}' <= c <= '\U{0D}' || '\U{1C}' <= c <= ' ' || c == '\U{85}' || c == '\U{A0}' || c == '\U{1680}'
    || '\U{2000}' <= c <= '\U{200A}' || c == '\U{2028}' || c == '\U{2029}' || c == '\U{202F}'
    || c == '\U{205F}' || c == '\U{3000}'
  }

  function StripLeft(s: string): string {
    if s != "" && IsSpace(s[0]) then StripLeft(s[1..]) else s
  }

  function StripRight(s: string): string {
    if s != "" && IsSpace(s[|s| - 1]) then StripRight(s[..|s| - 1]) else s
  }

  function Strip(s: string): string {
    StripRight(StripLeft(s))
  }

  // ---- the program -----------------------------------------------------------------------------

  function ExtractCodeBlock(section: string): string {
    var start, end := Find(section, START_MARKER), Find(section, END_MARKER);
    if start != -1 && end != -1 then Strip(Slice(section, start + |START_MARKER|, end)) else section
  }

  function SplitSections(code: string): (string, string) {
    var bpfStart, loaderStart := Find(code, BPF_MARKER), Find(code, LOADER_MARKER);
    if bpfStart == -1 || loaderStart == -1 then ("", "")
    else
      (ExtractCodeBlock(Strip(Slice(code, bpfStart, loaderStart))), ExtractCodeBlock(Strip(code[loaderStart..])))
  }

  // ---- the layout of a seed file -----------------------------------------------------------------

  function Rule(): (r: string)
    ensures |r| == 79 && r[0] == r[1] == '/' && r[2] == ' ' && forall k :: 3 <= k < |r| ==> r[k] == '='
  {
    "// " + seq(76, i => '=')
  }

  /** A line above the rest of a text. */
  function Over(line: string, rest: string): string {
    line + "\n" + rest
  }

  function Block(body: string, below: string): string {
    Over(Rule(), Over(START_MARKER, Over(body, Over(END_MARKER, below))))
  }

  function Print(bpf: string, loader: string): string {
    Over(Rule(), Over(BPF_MARKER, Block(bpf, Over("", Over(Rule(), Over(LOADER_MARKER, Block(loader, "")))))))
  }

  // ---- searching in lines -------------------------------------------------------------------------

  ghost predicate Free(text: string, m: string) {
    forall i :: !At(text, m, i)
  }

  ghost predicate FirstAt(text: string, m: string, p: int) {
    At(text, m, p) && forall i :: i < p ==> !At(text, m, i)
  }

  lemma FindIsFirst(text: string, m: string)
    ensures Find(text, m) == -1 <==> Free(text, m)
    ensures forall p :: FirstAt(text, m, p) ==> Find(text, m) == p
    ensures Find(text, m) != -1 ==> FirstAt(text, m, Find(text, m))
  {
    forall p | FirstAt(text, m, p)
      ensures Find(text, m) == p
    {
      assert 0 <= p;
    }
  }

  /** A marker without a line break never straddles a line boundary. */
  lemma AtSplits(a: string, b: string, m: string, i: int)
    requires '\n' !in m && m != ""
    ensures At(Over(a, b), m, i) <==> At(a, m, i) || (i > |a| && At(b, m, i - |a| - 1))
  {
    var t := Over(a, b);
    if i > |a| && i + |m| <= |t| {
      assert t[i..i + |m|] == b[i - |a| - 1..i - |a| - 1 + |m|];
    } else if 0 <= i && i + |m| <= |a| {
      assert t[i..i + |m|] == a[i..i + |m|];
    } else if 0 <= i <= |a| && i + |m| <= |t| {
      assert t[i..i + |m|][|a| - i] == '\n';
    }
  }

  lemma FreeOver(a: string, b: string, m: string)
    requires '\n' !in m && m != ""
    ensures Free(Over(a, b), m) <==> Free(a, m) && Free(b, m)
  {
    forall i
      ensures At(Over(a, b), m, i) <==> At(a, m, i) || (i > |a| && At(b, m, i - |a| - 1))
    {
      AtSplits(a, b, m, i);
    }
    if exists i :: At(b, m, i) {
      var i :| At(b, m, i);
      assert At(Over(a, b), m, i + |a| + 1);
    }
  }

  lemma FirstInLine(a: string, b: string, m: string, p: int)
    requires '\n' !in m && m != "" && FirstAt(a, m, p)
    ensures FirstAt(Over(a, b), m, p)
  {
    forall i | i <= p
      ensures At(Over(a, b), m, i) <==> At(a, m, i)
    {
      AtSplits(a, b, m, i);
    }
  }

  lemma FirstBelow(a: string, b: string, m: string, p: int)
    requires '\n' !in m && m != "" && Free(a, m) && FirstAt(b, m, p)
    ensures FirstAt(Over(a, b), m, |a| + 1 + p)
  {
    forall i
      ensures At(Over(a, b), m, i) <==> i > |a| && At(b, m, i - |a| - 1)
    {
      AtSplits(a, b, m, i);
    }
  }

  lemma PartOfPart(text: string, lo: nat, hi: nat, i: nat, j: nat)
    requires lo <= hi <= |text| && i <= j <= hi - lo
    ensures text[lo..hi][i..j] == text[lo + i..lo + j]
  {
    var part := text[lo..hi];
    assert |part[i..j]| == j - i && forall k :: 0 <= k < j - i ==> part[i..j][k] == text[lo + i..lo + j][k];
  }

  /** Part of a text without the marker does not hold the marker. */
  lemma FreePart(text: string, m: string, lo: nat, hi: nat)
    requires Free(text, m) && lo <= hi <= |text|
    ensures Free(text[lo..hi], m)
  {
    forall i
      ensures !At(text[lo..hi], m, i)
    {
      if 0 <= i && i + |m| <= hi - lo {
        PartOfPart(text, lo, hi, i, i + |m|);
        assert !At(text, m, lo + i);
      }
    }
  }

  lemma AtMeans(text: string, m: string, i: int)
    ensures At(text, m, i) ==> forall k :: 0 <= k < |m| ==> text[i + k] == m[k]
  {
    if At(text, m, i) {
      forall k | 0 <= k < |m|
        ensures text[i + k] == m[k]
      {
        assert text[i..i + |m|][k] == m[k];
      }
    }
  }

  /** The markers begin with two slashes, and the fixed lines have no other slashes. */
  lemma OnlyAtStart(line: string, m: string, k: nat)
    requires |m| >= 2 && m[0] == m[1] == '/' && forall i :: 2 <= i < |line| ==> line[i] != '/'
    requires k < |m| && (|m| > |line| || line[k] != m[k])
    ensures Free(line, m)
  {
    forall i
      ensures !At(line, m, i)
    {
      AtMeans(line, m, i);
      assert m[0] == '/' && m[1] == '/' && m[k] == m[k];
    }
  }

  predicate IsMarker(m: string) {
    m == BPF_MARKER || m == LOADER_MARKER || m == START_MARKER || m == END_MARKER
  }

  ghost predicate MarkerShape(m: string) {
    && |m| >= 19 && m[0] == m[1] == '/' && m[2] == ' ' && m[3] != '='
    && forall i :: 2 <= i < |m| ==> m[i] != '/' && m[i] != '\n'
  }

  lemma MarkersShaped()
    ensures MarkerShape(BPF_MARKER) && MarkerShape(LOADER_MARKER)
    ensures MarkerShape(START_MARKER) && MarkerShape(END_MARKER)
  {
  }

  lemma MarkerFacts(m: string)
    requires IsMarker(m)
    ensures '\n' !in m && MarkerShape(m) && FirstAt(m, m, 0) && Free("", m) && Free(Rule(), m)
  {
    MarkersShaped();
    ShapedFacts(m);
  }

  lemma ShapedFacts(m: string)
    requires MarkerShape(m)
    ensures '\n' !in m && FirstAt(m, m, 0) && Free("", m) && Free(Rule(), m)
  {
    OnlyAtStart(Rule(), m, 3);
    assert m[0..|m|] == m;
  }

  /** None of the fixed lines holds a marker that could be found too early. */
  lemma FixedLines()
    ensures Free(BPF_MARKER, LOADER_MARKER) && Free(BPF_MARKER, START_MARKER) && Free(BPF_MARKER, END_MARKER)
    ensures Free(LOADER_MARKER, START_MARKER) && Free(LOADER_MARKER, END_MARKER)
    ensures Free(START_MARKER, LOADER_MARKER) && Free(START_MARKER, END_MARKER) && Free(END_MARKER, LOADER_MARKER)
  {
    MarkerFacts(BPF_MARKER);
    MarkerFacts(LOADER_MARKER);
    MarkerFacts(START_MARKER);
    MarkerFacts(END_MARKER);
    OnlyAtStart(BPF_MARKER, LOADER_MARKER, 0);
    OnlyAtStart(BPF_MARKER, START_MARKER, 3);
    OnlyAtStart(BPF_MARKER, END_MARKER, 3);
    OnlyAtStart(LOADER_MARKER, START_MARKER, 3);
    OnlyAtStart(LOADER_MARKER, END_MARKER, 3);
    OnlyAtStart(START_MARKER, LOADER_MARKER, 0);
    OnlyAtStart(START_MARKER, END_MARKER, 16);
    OnlyAtStart(END_MARKER, LOADER_MARKER, 0);
  }

  // ---- stripping ----------------------------------------------------------------------------------

  predicate AllSpace(s: string) {
    forall i :: 0 <= i < |s| ==> IsSpace(s[i])
  }

  lemma {:induction false} StripLeftCuts(s: string) returns (n: nat)
    ensures n <= |s| && StripLeft(s) == s[n..]
  {
    if s != "" && IsSpace(s[0]) {
      var k := StripLeftCuts(s[1..]);
      n := k + 1;
      assert s[1..][k..] == s[n..];
    } else {
      n := 0;
    }
  }

  lemma {:induction false} StripRightCuts(s: string) returns (n: nat)
    ensures n <= |s| && StripRight(s) == s[..n]
    decreases |s|
  {
    if s != "" && IsSpace(s[|s| - 1]) {
      n := StripRightCuts(s[..|s| - 1]);
      assert s[..|s| - 1][..n] == s[..n];
    } else {
      n := |s|;
    }
  }

  lemma StripCuts(s: string) returns (lo: nat, hi: nat)
    ensures lo <= hi <= |s| && Strip(s) == s[lo..hi]
  {
    lo := StripLeftCuts(s);
    var n := StripRightCuts(s[lo..]);
    hi := lo + n;
    assert s[lo..][..n] == s[lo..hi];
  }

  lemma {:induction false} StripRightMore(s: string, w: string)
    requires AllSpace(w)
    ensures StripRight(s + w) == StripRight(s)
    decreases |w|
  {
    if w == "" {
      assert s + w == s;
    } else {
      var v := w[..|w| - 1];
      StripRightMore(s, v);
      assert (s + w)[..|s + w| - 1] == s + v;
    }
  }

  /** A line break around a text does not survive stripping. */
  lemma StripBreaks(s: string)
    ensures Strip("\n" + s + "\n") == Strip("\n" + s) == Strip(s)
  {
    assert ("\n" + s)[1..] == s && ("\n" + s + "\n")[1..] == s + "\n";
    StripTrailing(s, "\n");
  }

  lemma {:induction false} StripTrailing(s: string, w: string)
    requires AllSpace(w)
    ensures Strip(s + w) == Strip(s)
  {
    if s == "" {
      assert s + w == w;
      AllSpaceVanishes(w);
    } else if IsSpace(s[0]) {
      assert (s + w)[1..] == s[1..] + w;
      StripTrailing(s[1..], w);
    } else {
      StripRightMore(s, w);
    }
  }

  lemma {:induction false} AllSpaceVanishes(w: string)
    requires AllSpace(w)
    ensures Strip(w) == ""
  {
    if w != "" {
      AllSpaceVanishes(w[1..]);
    }
  }

  // ---- extracting a block -----------------------------------------------------------------------------

  /** The text of a section whose block holds `body` (with the end marker and all below it). */
  function Section(marker: string, body: string): string {
    Over(marker, Over(Rule(), Over(START_MARKER, body)))
  }

  const HEADER: int := 79 + 1 + |START_MARKER| + 1

  lemma SecondLine(a: string, m: string, rest: string)
    requires '\n' !in m && m != "" && FirstAt(m, m, 0) && Free(a, m)
    ensures FirstAt(Over(a, Over(m, rest)), m, |a| + 1)
  {
    FirstInLine(m, rest, m, 0);
    FirstBelow(a, Over(m, rest), m, 0);
  }

  lemma FourthLine(a: string, b: string, c: string, d: string, m: string, e: nat)
    requires '\n' !in m && m != "" && Free(a, m) && Free(b, m) && Free(c, m) && FirstAt(d, m, e)
    ensures FirstAt(Over(a, Over(b, Over(c, d))), m, |a| + 1 + (|b| + 1 + (|c| + 1 + e)))
  {
    FirstBelow(c, d, m, e);
    FirstBelow(b, Over(c, d), m, |c| + 1 + e);
    FirstBelow(a, Over(b, Over(c, d)), m, |b| + 1 + (|c| + 1 + e));
  }

  lemma StartFirst(marker: string, body: string)
    requires marker == BPF_MARKER || marker == LOADER_MARKER
    ensures FirstAt(Section(marker, body), START_MARKER, |marker| + 1 + 80)
  {
    FixedLines();
    MarkerFacts(START_MARKER);
    SecondLine(Rule(), START_MARKER, body);
    FirstBelow(marker, Over(Rule(), Over(START_MARKER, body)), START_MARKER, 80);
  }

  lemma EndFirst(marker: string, body: string, e: nat)
    requires marker == BPF_MARKER || marker == LOADER_MARKER
    requires FirstAt(body, END_MARKER, e)
    ensures FirstAt(Section(marker, body), END_MARKER, |marker| + 1 + HEADER + e)
  {
    FixedLines();
    MarkerFacts(END_MARKER);
    FourthLine(marker, Rule(), START_MARKER, body, END_MARKER, e);
  }

  lemma SliceBelow(head: string, body: string, e: nat)
    requires e <= |body|
    ensures Slice(Over(head, body), |head|, |head| + 1 + e) == "\n" + body[..e]
  {
    assert Over(head, body) == head + ("\n" + body);
  }

  lemma SectionHead(marker: string, body: string) returns (head: string)
    ensures |head| == |marker| + 1 + 80 + |START_MARKER| && Section(marker, body) == Over(head, body)
  {
    head := Over(marker, Over(Rule(), START_MARKER));
    OverAssociates(marker, Over(Rule(), START_MARKER), body);
    OverAssociates(Rule(), START_MARKER, body);
  }

  /** The code is what stands above the first end marker, stripped. */
  lemma ExtractsBody(marker: string, body: string, e: nat)
    requires marker == BPF_MARKER || marker == LOADER_MARKER
    requires FirstAt(body, END_MARKER, e)
    ensures ExtractCodeBlock(Section(marker, body)) == Strip(body[..e])
  {
    var s := Section(marker, body);
    StartFirst(marker, body);
    EndFirst(marker, body, e);
    FindIsFirst(s, START_MARKER);
    FindIsFirst(s, END_MARKER);
    var head := SectionHead(marker, body);
    SliceBelow(head, body, e);
    StripBreaks(body[..e]);
  }

  /** Whatever is extracted is part of the section. */
  lemma ExtractIsPart(section: string, m: string)
    requires Free(section, m)
    ensures Free(ExtractCodeBlock(section), m)
  {
    var start, end := Find(section, START_MARKER), Find(section, END_MARKER);
    if start != -1 && end != -1 {
      var part := Slice(section, start + |START_MARKER|, end);
      var lo, hi := StripCuts(part);
      if start + |START_MARKER| <= end {
        FreePart(section, m, start + |START_MARKER|, end);
      } else {
        assert part == "";
        FreePart(section, m, 0, 0);
        assert section[0..0] == "";
      }
      FreePart(part, m, lo, hi);
    }
  }

  // ---- splitting a printed file ----------------------------------------------------------------------

  function BpfText(bpf: string): string {
    Section(BPF_MARKER, Over(bpf, Over(END_MARKER, Over("", Rule()))))
  }

  function LoaderText(loader: string): string {
    Section(LOADER_MARKER, Over(loader, END_MARKER))
  }

  lemma OverAssociates(a: string, b: string, c: string)
    ensures Over(Over(a, b), c) == Over(a, Over(b, c)) && Over(a, b) + c == Over(a, b + c)
  {
    assert (a + "\n" + b) + "\n" + c == a + "\n" + (b + "\n" + c);
    assert (a + "\n" + b) + c == a + "\n" + (b + c);
  }

  lemma SectionAssociates(marker: string, body: string, c: string)
    ensures Over(Section(marker, body), c) == Section(marker, Over(body, c))
    ensures Section(marker, body) + c == Section(marker, body + c)
  {
    OverAssociates(marker, Over(Rule(), Over(START_MARKER, body)), c);
    OverAssociates(Rule(), Over(START_MARKER, body), c);
    OverAssociates(START_MARKER, body, c);
  }

  lemma PrintParts(bpf: string, loader: string)
    ensures Print(bpf, loader) == Over(Rule(), Over(BpfText(bpf), LoaderText(loader) + "\n"))
  {
    var low := LoaderText(loader) + "\n";
    SectionAssociates(LOADER_MARKER, Over(loader, END_MARKER), "\n");
    OverAssociates(loader, END_MARKER, "\n");
    assert END_MARKER + "\n" == Over(END_MARKER, "");
    assert low == Over(LOADER_MARKER, Block(loader, ""));
    SectionAssociates(BPF_MARKER, Over(bpf, Over(END_MARKER, Over("", Rule()))), low);
    OverAssociates(bpf, Over(END_MARKER, Over("", Rule())), low);
    OverAssociates(END_MARKER, Over("", Rule()), low);
    OverAssociates("", Rule(), low);
  }

  /** What comes back for a body: everything above an end marker in it, stripped. */
  function Recovered(body: string): string {
    var e := Find(body, END_MARKER);
    Strip(if e == -1 then body else body[..e])
  }

  /** A block is recovered whatever stands below its own end marker. */
  lemma ExtractsBlock(marker: string, body: string, below: string)
    requires marker == BPF_MARKER || marker == LOADER_MARKER
    requires FirstAt(below, END_MARKER, 0)
    ensures ExtractCodeBlock(Section(marker, Over(body, below))) == Recovered(body)
  {
    MarkerFacts(END_MARKER);
    FindIsFirst(body, END_MARKER);
    var e := Find(body, END_MARKER);
    var all := Over(body, below);
    if e == -1 {
      FirstBelow(body, below, END_MARKER, 0);
      ExtractsBody(marker, all, |body| + 1);
      assert all[..|body| + 1] == body + "\n";
      StripTrailing(body, "\n");
    } else {
      FirstInLine(body, below, END_MARKER, e);
      ExtractsBody(marker, all, e);
      assert all[..e] == body[..e];
    }
  }

  /** A text that begins and ends with something to see is not changed by stripping. */
  lemma StripNothing(s: string)
    requires s != "" && !IsSpace(s[0]) && !IsSpace(s[|s| - 1])
    ensures Strip(s) == s && Strip(s + "\n") == s
  {
    StripTrailing(s, "\n");
  }

  lemma LastOver(a: string, b: string)
    requires b != ""
    ensures Over(a, b)[|Over(a, b)| - 1] == b[|b| - 1]
  {
  }

  lemma SectionEnds(marker: string, body: string)
    requires marker == BPF_MARKER || marker == LOADER_MARKER
    requires body != "" && !IsSpace(body[|body| - 1])
    ensures Strip(Section(marker, body)) == Section(marker, body) == Strip(Section(marker, body) + "\n")
  {
    LastOver(START_MARKER, body);
    LastOver(Rule(), Over(START_MARKER, body));
    LastOver(marker, Over(Rule(), Over(START_MARKER, body)));
    MarkerFacts(marker);
    assert Section(marker, body)[0] == marker[0];
    StripNothing(Section(marker, body));
  }

  lemma BpfTextStripped(bpf: string)
    ensures Strip(BpfText(bpf) + "\n") == BpfText(bpf)
  {
    LastOver("", Rule());
    LastOver(END_MARKER, Over("", Rule()));
    LastOver(bpf, Over(END_MARKER, Over("", Rule())));
    SectionEnds(BPF_MARKER, Over(bpf, Over(END_MARKER, Over("", Rule()))));
  }

  lemma LoaderTextStripped(loader: string)
    ensures Strip(LoaderText(loader) + "\n") == LoaderText(loader)
  {
    LastOver(loader, END_MARKER);
    SectionEnds(LOADER_MARKER, Over(loader, END_MARKER));
  }

  lemma BpfMarkerFirst(bpf: string, loader: string)
    ensures FirstAt(Print(bpf, loader), BPF_MARKER, 80)
  {
    MarkerFacts(BPF_MARKER);
    SecondLine(Rule(), BPF_MARKER, Block(bpf, Over("", Over(Rule(), Over(LOADER_MARKER, Block(loader, ""))))));
  }

  lemma LoaderMarkerFirst(bpf: string, loader: string)
    requires Free(bpf, LOADER_MARKER)
    ensures FirstAt(Print(bpf, loader), LOADER_MARKER, 80 + |BpfText(bpf)| + 1)
  {
    FixedLines();
    MarkerFacts(LOADER_MARKER);
    var end := Over(END_MARKER, Over("", Rule()));
    FreeOver("", Rule(), LOADER_MARKER);
    FreeOver(END_MARKER, Over("", Rule()), LOADER_MARKER);
    FreeOver(bpf, end, LOADER_MARKER);
    FreeOver(START_MARKER, Over(bpf, end), LOADER_MARKER);
    FreeOver(Rule(), Over(START_MARKER, Over(bpf, end)), LOADER_MARKER);
    FreeOver(BPF_MARKER, Over(Rule(), Over(START_MARKER, Over(bpf, end))), LOADER_MARKER);
    var low := LoaderText(loader) + "\n";
    OverAssociates(LOADER_MARKER, Over(Rule(), Over(START_MARKER, Over(loader, END_MARKER))), "\n");
    FirstInLine(LOADER_MARKER, Over(Rule(), Over(START_MARKER, Over(loader, END_MARKER))) + "\n", LOADER_MARKER, 0);
    FirstBelow(BpfText(bpf), low, LOADER_MARKER, 0);
    FirstBelow(Rule(), Over(BpfText(bpf), low), LOADER_MARKER, |BpfText(bpf)| + 1);
    PrintParts(bpf, loader);
  }

  /** Splitting a printed file gives back both bodies as far as they reach above an end marker of
      their own; nothing else in them matters, except a loader marker in the first. */
  lemma SplitOfPrint(bpf: string, loader: string)
    requires Free(bpf, LOADER_MARKER)
    ensures SplitSections(Print(bpf, loader)) == (Recovered(bpf), Recovered(loader))
  {
    var code := Print(bpf, loader);
    var p := 80 + |BpfText(bpf)| + 1;
    BpfMarkerFirst(bpf, loader);
    LoaderMarkerFirst(bpf, loader);
    FindIsFirst(code, BPF_MARKER);
    FindIsFirst(code, LOADER_MARKER);
    SplitParts(bpf, loader);
    assert Find(code, BPF_MARKER) == 80 && Find(code, LOADER_MARKER) == p;
    BpfTextStripped(bpf);
    LoaderTextStripped(loader);
    MarkerFacts(END_MARKER);
    FirstInLine(END_MARKER, Over("", Rule()), END_MARKER, 0);
    ExtractsBlock(BPF_MARKER, bpf, Over(END_MARKER, Over("", Rule())));
    ExtractsBlock(LOADER_MARKER, loader, END_MARKER);
  }

  lemma SplitParts(bpf: string, loader: string)
    ensures var code, p := Print(bpf, loader), 80 + |BpfText(bpf)| + 1;
            p <= |code| && Slice(code, 80, p) == BpfText(bpf) + "\n" && code[p..] == LoaderText(loader) + "\n"
  {
    PrintParts(bpf, loader);
    var low := LoaderText(loader) + "\n";
    assert Print(bpf, loader) == (Rule() + "\n") + ((BpfText(bpf) + "\n") + low);
  }

  // ---- the round trip ------------------------------------------------------------------------------------

  lemma BeforeFirst(text: string, m: string, lo: nat, p: nat)
    requires FirstAt(text, m, p) && lo <= p && m != ""
    ensures Free(text[lo..p], m)
  {
    forall i
      ensures !At(text[lo..p], m, i)
    {
      if 0 <= i && i + |m| <= p - lo {
        PartOfPart(text, lo, p, i, i + |m|);
        assert !At(text, m, lo + i);
      }
    }
  }

  /** A loader marker never comes back. */
  lemma SplitLosesLoaderMarker(code: string)
    ensures Free(SplitSections(code).0, LOADER_MARKER)
  {
    var bs, ls := Find(code, BPF_MARKER), Find(code, LOADER_MARKER);
    FindIsFirst(code, LOADER_MARKER);
    MarkerFacts(LOADER_MARKER);
    if bs != -1 && ls != -1 {
      var part := Slice(code, bs, ls);
      if bs <= ls {
        BeforeFirst(code, LOADER_MARKER, bs, ls);
      } else {
        assert part == "";
      }
      var lo, hi := StripCuts(part);
      FreePart(part, LOADER_MARKER, lo, hi);
      ExtractIsPart(Strip(part), LOADER_MARKER);
    }
  }

  lemma RecoveredShorter(body: string)
    ensures Recovered(body) == body <==> Strip(body) == body && Free(body, END_MARKER)
  {
    FindIsFirst(body, END_MARKER);
    var e := Find(body, END_MARKER);
    if e != -1 {
      var lo, hi := StripCuts(body[..e]);
      assert |Recovered(body)| <= e < |body|;
    }
  }

  /** Splitting undoes printing exactly for stripped bodies that hold no end marker, the first one
      holding no loader marker either. */
  lemma SplitUndoesPrint(bpf: string, loader: string)
    ensures SplitSections(Print(bpf, loader)) == (bpf, loader) <==>
            && Strip(bpf) == bpf && Strip(loader) == loader
            && Free(bpf, LOADER_MARKER) && Free(bpf, END_MARKER) && Free(loader, END_MARKER)
  {
    if Free(bpf, LOADER_MARKER) {
      SplitOfPrint(bpf, loader);
      RecoveredShorter(bpf);
      RecoveredShorter(loader);
    } else {
      SplitLosesLoaderMarker(Print(bpf, loader));
    }
  }
}
