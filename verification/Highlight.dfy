/** The C highlighter embedded in visualize_evolution_tree.py: a hand-written scanner whose tokens
    are rendered as HTML. */
module Highlight {

  datatype Kind = Com | Str | Kw | Num | Plain

  datatype Token = Token(kind: Kind, text: string)

  const KEYWORDS: set<string> := {
    "if", "else", "for", "while", "do", "return", "static", "inline", "void", "int", "char",
    "unsigned", "signed", "struct", "enum", "union", "typedef", "const", "volatile", "sizeof",
    "switch", "case", "break", "continue", "default", "goto", "extern", "register", "auto",
    "long", "short", "double", "float", "bool", "true", "false", "NULL"
  }

  // ---- scanning ----------------------------------------------------------------------------------

  /** The character classes the scanner runs over. */
  datatype Class = Digit | Hex | Word | InLine

  predicate In(cls: Class, c: char) {
    match cls
    case Digit => '0' <= c <= '9'
    case Hex => '0' <= c <= '9' || 'a' <= c <= 'f' || 'A' <= c <= 'F'
    case Word => '0' <= c <= '9' || 'a' <= c <= 'z' || 'A' <= c <= 'Z' || c == '_'
    case InLine => c != '\n'
  }

  predicate StartsWord(c: char) {
    In(Word, c) && !In(Digit, c)
  }

  /** The end of the run of class characters from `j` on. */
  function RunEnd(src: string, j: nat, cls: Class): (r: nat)
    requires j <= |src|
    ensures j <= r <= |src| && forall k :: j <= k < r ==> In(cls, src[k])
    ensures r < |src| ==> !In(cls, src[r])
    decreases |src| - j
  {
    if j < |src| && In(cls, src[j]) then RunEnd(src, j + 1, cls) else j
  }

  predicate Pair(src: string, p: int, c: char, d: char) {
    0 <= p && p + 1 < |src| && src[p] == c && src[p + 1] == d
  }

  /** src.indexOf("*" + "/", p) */
  function CloserFrom(src: string, p: nat): (r: int)
    requires p <= |src|
    ensures r == -1 ==> forall k :: p <= k ==> !Pair(src, k, '*', '/')
    ensures r != -1 ==> p <= r && Pair(src, r, '*', '/') && forall k :: p <= k < r ==> !Pair(src, k, '*', '/')
    decreases |src| - p
  {
    if Pair(src, p, '*', '/') then p else if p == |src| then -1 else CloserFrom(src, p + 1)
  }

  /** The end of a literal whose scan stands at `j`: a backslash skips the next character. */
  function QuoteEnd(src: string, j: nat, quote: char): (r: nat)
    requires j <= |src|
    ensures j <= r <= |src|
    decreases |src| - j
  {
    if j == |src| then j
    else if src[j] == '\\' && j + 1 < |src| then QuoteEnd(src, j + 2, quote)
    else if src[j] == quote then j + 1
    else QuoteEnd(src, j + 1, quote)
  }

  predicate IsHexPrefix(src: string, i: nat) {
    Pair(src, i, '0', 'x') || Pair(src, i, '0', 'X')
  }

  predicate AtLineStart(src: string, i: nat)
    requires i <= |src|
  {
    i == 0 || src[i - 1] == '\n'
  }

  predicate AfterWord(src: string, i: nat)
    requires i <= |src|
  {
    i > 0 && In(Word, src[i - 1])
  }

  function NumberEnd(src: string, i: nat): (j: nat)
    requires i < |src| && In(Digit, src[i])
    ensures i < j <= |src|
  {
    if IsHexPrefix(src, i) then RunEnd(src, i + 2, Hex) else RunEnd(src, i, Digit)
  }

  /** The token at `i`: its kind and where it ends. */
  function Next(src: string, i: nat): (t: (Kind, nat))
    requires i < |src|
    ensures i < t.1 <= |src|
  {
    var ch := src[i];
    if Pair(src, i, '/', '*') then
      var end := CloserFrom(src, i + 2);
      (Com, if end == -1 then |src| else end + 2)
    else if Pair(src, i, '/', '/') then (Com, RunEnd(src, i, InLine))
    else if ch == '"' || ch == '\'' then (Str, QuoteEnd(src, i + 1, ch))
    else if ch == '#' && AtLineStart(src, i) then (Kw, RunEnd(src, i, InLine))
    else if In(Digit, ch) && !AfterWord(src, i) then (Num, NumberEnd(src, i))
    else if StartsWord(ch) then
      var j := RunEnd(src, i, Word);
      (if src[i..j] in KEYWORDS then Kw else Plain, j)
    else (Plain, i + 1)
  }

  function Lex(src: string, i: nat): seq<Token>
    requires i <= |src|
    decreases |src| - i
  {
    if i == |src| then []
    else
      var (kind, j) := Next(src, i);
      [Token(kind, src[i..j])] + Lex(src, j)
  }

  // ---- rendering -----------------------------------------------------------------------------------

  function EscapeChar(c: char): string {
    if c == '&' then "&amp;" else if c == '<' then "&lt;" else if c == '>' then "&gt;" else [c]
  }

  function EscapeHtml(s: string): string {
    if s == "" then "" else EscapeChar(s[0]) + EscapeHtml(s[1..])
  }

  function ClassName(kind: Kind): string {
    match kind
    case Com => "com"
    case Str => "str"
    case Kw => "kw"
    case Num => "num"
    case Plain => "plain"
  }

  function SpanTag(kind: Kind): string {
    "span class=\"" + ClassName(kind) + "\""
  }

  function Wrapped(kind: Kind, safe: string): string {
    "<" + SpanTag(kind) + ">" + safe + "<" + "/span" + ">"
  }

  function RenderToken(t: Token): string {
    if t.kind.Plain? then EscapeHtml(t.text) else Wrapped(t.kind, EscapeHtml(t.text))
  }

  function Render(ts: seq<Token>): string {
    if ts == [] then "" else RenderToken(ts[0]) + Render(ts[1..])
  }

  // ---- the program -----------------------------------------------------------------------------------

  method ScanRun(src: string, start: nat, cls: Class) returns (j: nat)
    requires start <= |src|
    ensures j == RunEnd(src, start, cls)
  {
    j := start;
    while j < |src| && In(cls, src[j])
      invariant j <= |src| && RunEnd(src, j, cls) == RunEnd(src, start, cls)
    {
      j := j + 1;
    }
  }

  method ScanQuote(src: string, start: nat, quote: char) returns (j: nat)
    requires start <= |src|
    ensures j == QuoteEnd(src, start, quote)
  {
    j := start;
    while j < |src|
      invariant j <= |src| && QuoteEnd(src, j, quote) == QuoteEnd(src, start, quote)
    {
      if src[j] == '\\' && j + 1 < |src| {
        j := j + 2;
        continue;
      }
      if src[j] == quote {
        j := j + 1;
        return;
      }
      j := j + 1;
    }
  }

  /** The body of the scanner's loop, up to pushing the token. */
  method ScanToken(src: string, i: nat) returns (kind: Kind, j: nat)
    requires i < |src|
    ensures (kind, j) == Next(src, i)
  {
    var ch := src[i];
    if Pair(src, i, '/', '*') {
      var end := CloserFrom(src, i + 2);
      return Com, if end == -1 then |src| else end + 2;
    }
    if Pair(src, i, '/', '/') {
      j := ScanRun(src, i, InLine);
      return Com, j;
    }
    if ch == '"' {
      j := ScanQuote(src, i + 1, '"');
      return Str, j;
    }
    if ch == '\'' {
      j := ScanQuote(src, i + 1, '\'');
      return Str, j;
    }
    if ch == '#' && AtLineStart(src, i) {
      j := ScanRun(src, i, InLine);
      return Kw, j;
    }
    if In(Digit, ch) && !AfterWord(src, i) {
      if IsHexPrefix(src, i) {
        j := ScanRun(src, i + 2, Hex);
      } else {
        j := ScanRun(src, i, Digit);
      }
      return Num, j;
    }
    if StartsWord(ch) {
      j := ScanRun(src, i, Word);
      return if src[i..j] in KEYWORDS then Kw else Plain, j;
    }
    kind, j := Plain, i + 1;
  }

  method Tokenize(src: string) returns (out: seq<Token>)
    ensures out == Lex(src, 0)
  {
    out := [];
    var i := 0;
    while i < |src|
      invariant i <= |src| && out + Lex(src, i) == Lex(src, 0)
    {
      var kind, j := ScanToken(src, i);
      LexStep(src, i, kind, j, out);
      out := out + [Token(kind, src[i..j])];
      i := j;
    }
  }

  lemma Regroup<T>(a: seq<T>, x: seq<T>, b: seq<T>)
    ensures (a + x) + b == a + (x + b)
  {
  }

  lemma LexUnfolds(src: string, i: nat, t: (Kind, nat))
    requires i < |src| && t == Next(src, i)
    ensures Lex(src, i) == [Token(t.0, src[i..t.1])] + Lex(src, t.1)
  {
  }

  lemma LexStep(src: string, i: nat, kind: Kind, j: nat, out: seq<Token>)
    requires i < |src| && (kind, j) == Next(src, i)
    ensures (out + [Token(kind, src[i..j])]) + Lex(src, j) == out + Lex(src, i)
  {
    LexUnfolds(src, i, (kind, j));
    Regroup(out, [Token(kind, src[i..j])], Lex(src, j));
  }

  method Highlight(src: string) returns (html: string)
    ensures html == Render(Lex(src, 0))
  {
    var out := Tokenize(src);
    html := "";
    for k := 0 to |out|
      invariant html + Render(out[k..]) == Render(out)
    {
      RenderStep(out, k, html);
      var safe := EscapeHtml(out[k].text);
      html := html + if out[k].kind == Plain then safe else Wrapped(out[k].kind, safe);
    }
  }

  lemma RenderStep(out: seq<Token>, k: nat, html: string)
    requires k < |out|
    ensures (html + RenderToken(out[k])) + Render(out[k + 1..]) == html + Render(out[k..])
  {
    var rest := out[k..];
    assert rest[0] == out[k] && rest[1..] == out[k + 1..];
    Regroup(html, RenderToken(rest[0]), Render(rest[1..]));
  }

  // ---- nothing is lost ----------------------------------------------------------------------------------

  function Texts(ts: seq<Token>): string {
    if ts == [] then "" else ts[0].text + Texts(ts[1..])
  }

  /** The token texts concatenate to the source. */
  lemma {:induction false} LexLosesNothing(src: string, i: nat)
    requires i <= |src|
    ensures Texts(Lex(src, i)) == src[i..]
    decreases |src| - i
  {
    if i < |src| {
      var (kind, j) := Next(src, i);
      LexLosesNothing(src, j);
      assert Lex(src, i)[1..] == Lex(src, j);
      assert src[i..j] + src[j..] == src[i..];
    }
  }

  /** The first thing a browser reads: a tag shows nothing, an entity or a character one character. */
  function Read(html: string): (r: (string, string))
    requires html != ""
    ensures |r.1| < |html|
  {
    if html[0] == '<' then ("", AfterTag(html))
    else if Starts(html, "&amp;") then ("&", html[5..])
    else if Starts(html, "&lt;") then ("<", html[4..])
    else if Starts(html, "&gt;") then (">", html[4..])
    else ([html[0]], html[1..])
  }

  /** What a browser shows. */
  function Decode(html: string): string
    decreases |html|
  {
    if html == "" then "" else Read(html).0 + Decode(Read(html).1)
  }

  predicate Starts(html: string, s: string) {
    |s| <= |html| && html[..|s|] == s
  }

  /** What follows the next '>'. */
  function AfterTag(html: string): (rest: string)
    ensures html != "" ==> |rest| < |html|
  {
    if html == "" then "" else if html[0] == '>' then html[1..] else AfterTag(html[1..])
  }

  lemma {:induction false} TagEnds(body: string, rest: string)
    requires '>' !in body
    ensures AfterTag(body + ">" + rest) == rest
  {
    if body == "" {
      assert (body + ">" + rest)[1..] == rest;
    } else {
      TagEnds(body[1..], rest);
      assert (body + ">" + rest)[1..] == body[1..] + ">" + rest;
    }
  }

  lemma TagVanishes(body: string, rest: string)
    requires '>' !in body
    ensures Decode("<" + body + ">" + rest) == Decode(rest)
  {
    var html := "<" + body + ">" + rest;
    TagEnds("<" + body, rest);
    assert ("<" + body) + ">" + rest == html;
    DecodeStep(html, "", rest);
  }

  lemma CharRead(c: char, rest: string)
    ensures EscapeChar(c) + rest != "" && Read(EscapeChar(c) + rest) == ([c], rest)
  {
    var html := EscapeChar(c) + rest;
    if c == '&' {
      assert html[..5] == "&amp;" && html[5..] == rest;
    } else if c == '<' {
      assert html[..4] == "&lt;" && html[4..] == rest;
      assert |html| >= 5 ==> html[..5][1] == 'l';
    } else if c == '>' {
      assert html[..4] == "&gt;" && html[4..] == rest;
      assert html[..4][1] == 'g' && (|html| >= 5 ==> html[..5][1] == 'g');
    } else {
      assert html[0] == c && html[1..] == rest;
      assert forall n :: 1 <= n <= |html| ==> html[..n][0] == c;
    }
  }

  lemma DecodeStep(html: string, shown: string, rest: string)
    requires html != "" && Read(html) == (shown, rest)
    ensures Decode(html) == shown + Decode(rest)
  {
  }

  lemma {:induction false} TextDecodes(s: string, rest: string)
    ensures Decode(EscapeHtml(s) + rest) == s + Decode(rest)
  {
    if s == "" {
      assert EscapeHtml(s) + rest == rest;
    } else {
      var below := EscapeHtml(s[1..]) + rest;
      Regroup(EscapeChar(s[0]), EscapeHtml(s[1..]), rest);
      CharRead(s[0], below);
      DecodeStep(EscapeChar(s[0]) + below, [s[0]], below);
      TextDecodes(s[1..], rest);
      Regroup([s[0]], s[1..], Decode(rest));
      assert [s[0]] + s[1..] == s;
    }
  }

  lemma SpanParts(t: Token, rest: string)
    requires !t.kind.Plain?
    ensures RenderToken(t) + rest
         == "<" + SpanTag(t.kind) + ">" + (EscapeHtml(t.text) + ("<" + "/span" + ">" + rest))
  {
  }

  lemma TokenDecodes(t: Token, rest: string)
    ensures Decode(RenderToken(t) + rest) == t.text + Decode(rest)
  {
    if t.kind.Plain? {
      TextDecodes(t.text, rest);
    } else {
      var open := SpanTag(t.kind);
      var close := "<" + "/span" + ">" + rest;
      SpanParts(t, rest);
      TagVanishes(open, EscapeHtml(t.text) + close);
      TextDecodes(t.text, close);
      TagVanishes("/span", rest);
    }
  }

  lemma {:induction false} RenderDecodes(ts: seq<Token>)
    ensures Decode(Render(ts)) == Texts(ts)
  {
    if ts != [] {
      TokenDecodes(ts[0], Render(ts[1..]));
      RenderDecodes(ts[1..]);
    }
  }

  /** The highlighted page shows exactly the source. */
  lemma HighlightShowsSource(src: string)
    ensures Decode(Render(Lex(src, 0))) == src
  {
    RenderDecodes(Lex(src, 0));
    LexLosesNothing(src, 0);
    assert src[0..] == src;
  }

  // ---- the colours ----------------------------------------------------------------------------------

  /** What stands before the next '>'. */
  function TagText(html: string): string {
    if html == "" || html[0] == '>' then "" else [html[0]] + TagText(html[1..])
  }

  /** The kind a tag switches to: that of a span it opens, plain when it closes one. */
  function TagKind(html: string): Kind {
    match TagText(html)
    case "<span class=\"com\"" => Com
    case "<span class=\"str\"" => Str
    case "<span class=\"kw\"" => Kw
    case "<span class=\"num\"" => Num
    case _ => Plain
  }

  /** What a browser shows, each character with the kind of the span it stands in. */
  function Coloured(html: string, kind: Kind): seq<(Kind, char)>
    decreases |html|
  {
    if html == "" then []
    else if html[0] == '<' then Coloured(AfterTag(html), TagKind(html))
    else Paint(Read(html).0, kind) + Coloured(Read(html).1, kind)
  }

  function Paint(s: string, kind: Kind): (r: seq<(Kind, char)>)
    ensures |r| == |s| && forall i :: 0 <= i < |s| ==> r[i] == (kind, s[i])
  {
    seq(|s|, i requires 0 <= i < |s| => (kind, s[i]))
  }

  /** The characters of the tokens, each with the kind of its token. */
  function Colours(ts: seq<Token>): seq<(Kind, char)> {
    if ts == [] then [] else Paint(ts[0].text, ts[0].kind) + Colours(ts[1..])
  }

  lemma {:induction false} TagTextIs(body: string, rest: string)
    requires '>' !in body
    ensures TagText(body + ">" + rest) == body
  {
    if body != "" {
      TagTextIs(body[1..], rest);
      assert (body + ">" + rest)[1..] == body[1..] + ">" + rest;
    }
  }

  lemma TagColours(body: string, rest: string, kind: Kind, next: Kind)
    requires '>' !in body && TagKind("<" + body + ">" + rest) == next
    ensures Coloured("<" + body + ">" + rest, kind) == Coloured(rest, next)
  {
    TagEnds("<" + body, rest);
    assert ("<" + body) + ">" + rest == "<" + body + ">" + rest;
  }

  lemma OpenTagKind(kind: Kind, rest: string)
    ensures TagKind("<" + SpanTag(kind) + ">" + rest) == kind
  {
    TagTextIs("<" + SpanTag(kind), rest);
    assert ("<" + SpanTag(kind)) + ">" + rest == "<" + SpanTag(kind) + ">" + rest;
    OpenText(kind, "<" + SpanTag(kind));
  }

  lemma OpenText(kind: Kind, text: string)
    requires text == "<" + SpanTag(kind)
    ensures match kind
            case Com => text == "<span class=\"com\""
            case Str => text == "<span class=\"str\""
            case Kw => text == "<span class=\"kw\""
            case Num => text == "<span class=\"num\""
            case Plain => |text| == 19
  {
  }

  lemma CloseTagKind(rest: string)
    ensures TagKind("<" + "/span" + ">" + rest) == Plain
  {
    TagTextIs("<" + "/span", rest);
    assert ("<" + "/span") + ">" + rest == "<" + "/span" + ">" + rest;
  }

  lemma {:induction false} TextColours(s: string, rest: string, kind: Kind)
    ensures Coloured(EscapeHtml(s) + rest, kind) == Paint(s, kind) + Coloured(rest, kind)
  {
    if s == "" {
      assert EscapeHtml(s) + rest == rest;
    } else {
      var below := EscapeHtml(s[1..]) + rest;
      Regroup(EscapeChar(s[0]), EscapeHtml(s[1..]), rest);
      CharRead(s[0], below);
      TextColours(s[1..], rest, kind);
      Regroup(Paint([s[0]], kind), Paint(s[1..], kind), Coloured(rest, kind));
      assert Paint([s[0]], kind) + Paint(s[1..], kind) == Paint(s, kind);
    }
  }

  lemma TokenColours(t: Token, rest: string)
    ensures Coloured(RenderToken(t) + rest, Plain) == Paint(t.text, t.kind) + Coloured(rest, Plain)
  {
    if t.kind.Plain? {
      TextColours(t.text, rest, Plain);
    } else {
      var close := "<" + "/span" + ">" + rest;
      var shown := EscapeHtml(t.text) + close;
      SpanParts(t, rest);
      OpenTagKind(t.kind, shown);
      TagColours(SpanTag(t.kind), shown, Plain, t.kind);
      TextColours(t.text, close, t.kind);
      CloseTagKind(rest);
      TagColours("/span", rest, t.kind, Plain);
    }
  }

  lemma {:induction false} RenderColours(ts: seq<Token>)
    ensures Coloured(Render(ts), Plain) == Colours(ts)
  {
    if ts != [] {
      TokenColours(ts[0], Render(ts[1..]));
      RenderColours(ts[1..]);
    }
  }

  /** The markup shows every character of the source in the colour of its token. So kinds and texts can be
      read back: the source is what it shows, and the source has only one tokenization. */
  lemma HighlightColours(src: string)
    ensures Coloured(Render(Lex(src, 0)), Plain) == Colours(Lex(src, 0))
  {
    RenderColours(Lex(src, 0));
  }

  // ---- what the tokens are ---------------------------------------------------------------------------

  /** The backslashes immediately before `p`, none of them before `lo`. */
  function Backslashes(src: string, lo: nat, p: nat): nat
    requires p <= |src|
  {
    if p > lo && src[p - 1] == '\\' then 1 + Backslashes(src, lo, p - 1) else 0
  }

  /** A quote closes a literal when an even number of backslashes precedes it. */
  predicate Closes(src: string, lo: nat, p: int, quote: char) {
    lo <= p < |src| && src[p] == quote && Backslashes(src, lo, p) % 2 == 0
  }

  ghost predicate EndsLiteral(src: string, lo: nat, j: nat, quote: char) {
    if j > lo && Closes(src, lo, j - 1, quote)
    then forall p :: p < j - 1 ==> !Closes(src, lo, p, quote)
    else j == |src| && forall p :: !Closes(src, lo, p, quote)
  }

  lemma {:induction false} QuoteEndFrom(src: string, lo: nat, j: nat, quote: char)
    requires lo <= j <= |src| && quote != '\\' && Backslashes(src, lo, j) % 2 == 0
    requires forall p :: p < j ==> !Closes(src, lo, p, quote)
    ensures EndsLiteral(src, lo, QuoteEnd(src, j, quote), quote)
    decreases |src| - j
  {
    if j == |src| {
    } else if src[j] == '\\' && j + 1 < |src| {
      assert Backslashes(src, lo, j + 1) == 1 + Backslashes(src, lo, j);
      assert !Closes(src, lo, j + 1, quote);
      QuoteEndFrom(src, lo, j + 2, quote);
    } else if src[j] == quote {
      assert Closes(src, lo, j, quote);
    } else {
      QuoteEndPlain(src, lo, j, quote);
    }
  }

  lemma {:induction false} QuoteEndPlain(src: string, lo: nat, j: nat, quote: char)
    requires lo <= j < |src| && quote != '\\' && Backslashes(src, lo, j) % 2 == 0
    requires forall p :: p < j ==> !Closes(src, lo, p, quote)
    requires src[j] != quote && (src[j] != '\\' || j + 1 == |src|)
    ensures EndsLiteral(src, lo, QuoteEnd(src, j, quote), quote)
    decreases |src| - j, 0
  {
    assert QuoteEnd(src, j, quote) == QuoteEnd(src, j + 1, quote);
    if j + 1 < |src| {
      assert Backslashes(src, lo, j + 1) == 0;
      QuoteEndFrom(src, lo, j + 1, quote);
    }
  }

  /** The longest run of class characters. */
  ghost predicate Run(src: string, i: nat, j: nat, cls: Class) {
    && i <= j <= |src| && (j < |src| ==> !In(cls, src[j]))
    && forall k :: i <= k < j ==> In(cls, src[k])
  }

  /** A block comment reaches to the first closer behind its opener, or to the end. */
  ghost predicate EndsComment(src: string, i: nat, j: nat) {
    if i + 4 <= j && Pair(src, j - 2, '*', '/')
    then forall p :: i + 2 <= p < j - 2 ==> !Pair(src, p, '*', '/')
    else j == |src| && forall p :: i + 2 <= p ==> !Pair(src, p, '*', '/')
  }

  /** What the token at `i` is, said without scanning. */
  ghost predicate Fits(src: string, i: nat, kind: Kind, j: nat) {
    && i < j <= |src|
    && if Pair(src, i, '/', '*') then kind == Com && EndsComment(src, i, j)
       else if Pair(src, i, '/', '/') then kind == Com && Run(src, i, j, InLine)
       else if src[i] == '"' || src[i] == '\'' then kind == Str && EndsLiteral(src, i + 1, j, src[i])
       else if src[i] == '#' && AtLineStart(src, i) then kind == Kw && Run(src, i, j, InLine)
       else if In(Digit, src[i]) && !AfterWord(src, i) then
         kind == Num && if IsHexPrefix(src, i) then Run(src, i + 2, j, Hex) else Run(src, i, j, Digit)
       else if StartsWord(src[i]) then
         Run(src, i, j, Word) && kind == if src[i..j] in KEYWORDS then Kw else Plain
       else kind == Plain && j == i + 1
  }

  lemma NextFits(src: string, i: nat)
    requires i < |src|
    ensures Fits(src, i, Next(src, i).0, Next(src, i).1)
  {
    if !Pair(src, i, '/', '*') && !Pair(src, i, '/', '/') && (src[i] == '"' || src[i] == '\'') {
      QuoteEndFrom(src, i + 1, i + 1, src[i]);
    }
  }

  lemma RunUnique(src: string, i: nat, j: nat, k: nat, cls: Class)
    requires Run(src, i, j, cls) && Run(src, i, k, cls)
    ensures j == k
  {
  }

  lemma LiteralUnique(src: string, lo: nat, j: nat, k: nat, quote: char)
    requires EndsLiteral(src, lo, j, quote) && EndsLiteral(src, lo, k, quote) && lo <= j && lo <= k
    ensures j == k
  {
    if j > lo && Closes(src, lo, j - 1, quote) && k > lo && Closes(src, lo, k - 1, quote) {
      assert !(j < k) && !(k < j);
    }
  }

  lemma CommentUnique(src: string, i: nat, j: nat, k: nat)
    requires EndsComment(src, i, j) && EndsComment(src, i, k)
    ensures j == k
  {
    if i + 4 <= j && Pair(src, j - 2, '*', '/') && i + 4 <= k && Pair(src, k - 2, '*', '/') {
      assert !(j < k) && !(k < j);
    }
  }

  /** The description leaves no choice. */
  lemma FitsUnique(src: string, i: nat, kind: Kind, j: nat, kind': Kind, k: nat)
    requires Fits(src, i, kind, j) && Fits(src, i, kind', k)
    ensures kind == kind' && j == k
  {
    if Pair(src, i, '/', '*') {
      CommentUnique(src, i, j, k);
    } else if Pair(src, i, '/', '/') {
      RunUnique(src, i, j, k, InLine);
    } else if src[i] == '"' || src[i] == '\'' {
      LiteralUnique(src, i + 1, j, k, src[i]);
    } else if src[i] == '#' && AtLineStart(src, i) {
      RunUnique(src, i, j, k, InLine);
    } else if In(Digit, src[i]) && !AfterWord(src, i) {
      if IsHexPrefix(src, i) {
        RunUnique(src, i + 2, j, k, Hex);
      } else {
        RunUnique(src, i, j, k, Digit);
      }
    } else if StartsWord(src[i]) {
      RunUnique(src, i, j, k, Word);
    }
  }

  /** `ts` cuts the source from `i` on into tokens that fit. */
  ghost predicate Tokenization(src: string, i: nat, ts: seq<Token>)
    decreases |ts|
  {
    if ts == [] then i == |src|
    else
      var j := i + |ts[0].text|;
      Fits(src, i, ts[0].kind, j) && ts[0].text == src[i..j] && Tokenization(src, j, ts[1..])
  }

  /** The scanner's output is the one and only list of tokens that fit. */
  lemma {:induction false} LexIsTheTokenization(src: string, i: nat, ts: seq<Token>)
    requires i <= |src|
    ensures Tokenization(src, i, ts) <==> ts == Lex(src, i)
    decreases |src| - i
  {
    if i < |src| {
      var (kind, j) := Next(src, i);
      LexUnfolds(src, i, (kind, j));
      if ts != [] {
        var k := i + |ts[0].text|;
        FitsOnlyNext(src, i, kind, j, ts[0].kind, k);
        FirstToken(src, i, kind, j, ts, k);
        LexIsTheTokenization(src, j, ts[1..]);
        FirstAndRest(ts, Token(kind, src[i..j]), Lex(src, j));
      }
    } else if ts != [] {
      assert !Fits(src, i, ts[0].kind, i + |ts[0].text|);
    }
  }

  lemma FitsOnlyNext(src: string, i: nat, kind: Kind, j: nat, kind': Kind, k: nat)
    requires i < |src| && Next(src, i) == (kind, j)
    ensures Fits(src, i, kind', k) <==> kind' == kind && k == j
  {
    NextFits(src, i);
    if Fits(src, i, kind', k) {
      FitsUnique(src, i, kind, j, kind', k);
    }
  }

  lemma FirstToken(src: string, i: nat, kind: Kind, j: nat, ts: seq<Token>, k: nat)
    requires i < j <= |src| && ts != [] && k == i + |ts[0].text|
    requires Fits(src, i, ts[0].kind, k) <==> ts[0].kind == kind && k == j
    ensures Tokenization(src, i, ts) <==> ts[0] == Token(kind, src[i..j]) && Tokenization(src, j, ts[1..])
  {
  }

  lemma FirstAndRest(ts: seq<Token>, t: Token, rest: seq<Token>)
    requires ts != []
    ensures ts == [t] + rest <==> ts[0] == t && ts[1..] == rest
  {
    assert ts == [ts[0]] + ts[1..];
  }

  // ---- numbers ------------------------------------------------------------------------------------------

  /** No token starts with a digit that continues a word. */
  ghost predicate NumberNotSplit(src: string, i: nat)
    requires i <= |src|
  {
    i < |src| && In(Digit, src[i]) ==> !AfterWord(src, i)
  }

  lemma NextSplitsNoNumber(src: string, i: nat)
    requires i < |src| && NumberNotSplit(src, i)
    ensures NumberNotSplit(src, Next(src, i).1)
  {
    var (kind, j) := Next(src, i);
    NextFits(src, i);
    if kind == Str && j < |src| {
      assert Closes(src, i + 1, j - 1, src[i]);
    }
  }

  /** The look-behind of the number rule never decides: every token that starts with a digit is a
      number. */
  lemma {:induction false} DigitsAreNumbers(src: string, i: nat, k: nat)
    requires i <= |src| && NumberNotSplit(src, i) && k < |Lex(src, i)|
    ensures Lex(src, i)[k].text != "" && (In(Digit, Lex(src, i)[k].text[0]) ==> Lex(src, i)[k].kind == Num)
    decreases k
  {
    var (kind, j) := Next(src, i);
    LexUnfolds(src, i, (kind, j));
    if k > 0 {
      NextSplitsNoNumber(src, i);
      DigitsAreNumbers(src, j, k - 1);
    }
  }
}
