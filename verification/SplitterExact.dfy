/** What the splitter returns for any file, described by where the markers stand. */
module SplitterExact {
  import opened Splitter

  // ---- stripping -----------------------------------------------------------------------------------

  ghost predicate Blank(s: string) {
    forall i :: 0 <= i < |s| ==> IsSpace(s[i])
  }

  /** `t` is `s` without the space around it. */
  ghost predicate Stripped(s: string, t: string) {
    exists i, j :: StrippedAt(s, t, i, j)
  }

  ghost predicate StrippedAt(s: string, t: string, i: int, j: int) {
    && 0 <= i <= j <= |s| && t == s[i..j] && Blank(s[..i]) && Blank(s[j..])
    && (i < j ==> !IsSpace(s[i]) && !IsSpace(s[j - 1]))
  }

  lemma {:induction false} LeftCut(s: string) returns (i: nat)
    ensures i <= |s| && StripLeft(s) == s[i..] && Blank(s[..i]) && (i < |s| ==> !IsSpace(s[i]))
  {
    i := 0;
    if s != "" && IsSpace(s[0]) {
      var k := LeftCut(s[1..]);
      i := k + 1;
      assert s[1..][k..] == s[i..] && s[..i] == [s[0]] + s[1..][..k];
    }
  }

  lemma {:induction false} RightCut(s: string) returns (j: nat)
    ensures j <= |s| && StripRight(s) == s[..j] && Blank(s[j..]) && (j > 0 ==> !IsSpace(s[j - 1]))
  {
    j := |s|;
    if s != "" && IsSpace(s[|s| - 1]) {
      var init := s[..|s| - 1];
      j := RightCut(init);
      assert s[j..] == init[j..] + [s[|s| - 1]] && init[..j] == s[..j];
    }
  }

  lemma StripStrips(s: string)
    ensures Stripped(s, Strip(s))
  {
    var i := LeftCut(s);
    var k := RightCut(s[i..]);
    assert s[i..][..k] == s[i..i + k] && s[i..][k..] == s[i + k..];
    assert StrippedAt(s, Strip(s), i, i + k);
  }

  lemma OneStripped(s: string, t: string, u: string)
    requires Stripped(s, t) && Stripped(s, u)
    ensures t == u
  {
    var i, j :| StrippedAt(s, t, i, j);
    var k, l :| StrippedAt(s, u, k, l);
    SpaceOutside(s, t, u, i, j, k, l);
    SpaceOutside(s, u, t, k, l, i, j);
  }

  /** A part with text in it lies inside every other stripped part. */
  lemma SpaceOutside(s: string, t: string, u: string, i: int, j: int, k: int, l: int)
    requires StrippedAt(s, t, i, j) && StrippedAt(s, u, k, l)
    ensures i < j ==> k <= i && j <= l
  {
    forall n | 0 <= n < k
      ensures IsSpace(s[n])
    {
      assert s[..k][n] == s[n];
    }
    forall n | l <= n < |s|
      ensures IsSpace(s[n])
    {
      assert s[l..][n - l] == s[n];
    }
  }

  lemma StripExactly(s: string, t: string)
    ensures Stripped(s, t) <==> t == Strip(s)
  {
    StripStrips(s);
    if Stripped(s, t) {
      OneStripped(s, t, Strip(s));
    }
  }

  // ---- one section ------------------------------------------------------------------------------------

  function Between(text: string, lo: int, hi: int): string
    requires 0 <= lo && hi <= |text|
  {
    if lo <= hi then text[lo..hi] else ""
  }

  /** The code of a section: what stands between its first start marker and its first end marker, stripped; the
      whole section if it lacks one of them. */
  ghost predicate CodeOf(section: string, code: string) {
    if Free(section, "// EVOLVE-BLOCK-START") || Free(section, "// EVOLVE-BLOCK-END") then code == section
    else exists p, q :: Enclosed(section, code, p, q)
  }

  ghost predicate Enclosed(section: string, code: string, p: int, q: int) {
    && FirstAt(section, "// EVOLVE-BLOCK-START", p) && FirstAt(section, "// EVOLVE-BLOCK-END", q)
    && Stripped(Between(section, p + 21, q), code)
  }

  lemma SliceIsBetween(text: string, lo: nat, hi: nat)
    requires hi <= |text|
    ensures Slice(text, lo, hi) == Between(text, lo, hi)
  {
  }

  lemma ExtractExactly(section: string, code: string)
    ensures CodeOf(section, code) <==> code == ExtractCodeBlock(section)
  {
    assert |START_MARKER| == 21;
    FindIsFirst(section, START_MARKER);
    FindIsFirst(section, END_MARKER);
    var p, q := Find(section, START_MARKER), Find(section, END_MARKER);
    if p != -1 && q != -1 {
      SliceIsBetween(section, p + 21, q);
      StripExactly(Between(section, p + 21, q), code);
      assert Enclosed(section, code, p, q) <==> code == ExtractCodeBlock(section);
      assert CodeOf(section, code) <==> Enclosed(section, code, p, q);
    }
  }

  // ---- the whole file ------------------------------------------------------------------------------------

  /** What the two sections of a file hold: nothing if a section marker is missing, else the code of the text from
      the first kernel marker up to the first loader marker, and that of the text from there on. */
  ghost predicate SectionsOf(file: string, bpf: string, loader: string) {
    if Free(file, "// SECTION: BPF KERNEL CODE") || Free(file, "// SECTION: USERSPACE LOADER")
    then bpf == "" && loader == ""
    else exists p, q, s, t :: SectionsAt(file, bpf, loader, p, q, s, t)
  }

  ghost predicate SectionsAt(file: string, bpf: string, loader: string, p: int, q: int, s: string, t: string) {
    && FirstAt(file, "// SECTION: BPF KERNEL CODE", p) && FirstAt(file, "// SECTION: USERSPACE LOADER", q)
    && Stripped(Between(file, p, q), s) && Stripped(Between(file, q, |file|), t)
    && CodeOf(s, bpf) && CodeOf(t, loader)
  }

  lemma SectionsFound(file: string, p: int, q: int)
    requires FirstAt(file, BPF_MARKER, p) && FirstAt(file, LOADER_MARKER, q)
    ensures SplitSections(file) == (ExtractCodeBlock(Strip(Between(file, p, q))),
                                    ExtractCodeBlock(Strip(Between(file, q, |file|))))
  {
    FindIsFirst(file, BPF_MARKER);
    FindIsFirst(file, LOADER_MARKER);
    SliceIsBetween(file, p, q);
    assert file[q..] == Between(file, q, |file|);
  }

  lemma SectionsReturned(file: string, p: int, q: int)
    requires FirstAt(file, BPF_MARKER, p) && FirstAt(file, LOADER_MARKER, q)
    ensures var r := SplitSections(file);
            SectionsAt(file, r.0, r.1, p, q, Strip(Between(file, p, q)), Strip(Between(file, q, |file|)))
  {
    var s, t := Strip(Between(file, p, q)), Strip(Between(file, q, |file|));
    SectionsFound(file, p, q);
    StripStrips(Between(file, p, q));
    StripStrips(Between(file, q, |file|));
    ExtractExactly(s, ExtractCodeBlock(s));
    ExtractExactly(t, ExtractCodeBlock(t));
  }

  lemma SectionsDetermined(file: string, bpf: string, loader: string, p: int, q: int, s: string, t: string)
    requires SectionsAt(file, bpf, loader, p, q, s, t)
    ensures SplitSections(file) == (bpf, loader)
  {
    SectionsFound(file, p, q);
    StripExactly(Between(file, p, q), s);
    StripExactly(Between(file, q, |file|), t);
    ExtractExactly(s, bpf);
    ExtractExactly(t, loader);
  }

  /** For every file the splitter returns its two sections, and no other pair is described so. */
  lemma SplitExactly(file: string, bpf: string, loader: string)
    ensures SectionsOf(file, bpf, loader) <==> SplitSections(file) == (bpf, loader)
  {
    FindIsFirst(file, BPF_MARKER);
    FindIsFirst(file, LOADER_MARKER);
    var p, q := Find(file, BPF_MARKER), Find(file, LOADER_MARKER);
    if p != -1 && q != -1 {
      assert !Free(file, BPF_MARKER) && !Free(file, LOADER_MARKER);
      SectionsReturned(file, p, q);
      if SectionsOf(file, bpf, loader) {
        var i, j, s, t :| SectionsAt(file, bpf, loader, i, j, s, t);
        SectionsDetermined(file, bpf, loader, i, j, s, t);
      }
    }
  }
}
