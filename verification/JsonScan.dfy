/** The brace scan of `_extract_json` in frontier.py: the text handed to json.loads when the whole
    reply is not JSON. */
module JsonScan {
  import opened Options

  /** Opening minus closing braces. */
  function Depth(text: string): int {
    if text == "" then 0
    else
      var c := text[|text| - 1];
      Depth(text[..|text| - 1]) + if c == '{' then 1 else if c == '}' then -1 else 0
  }

  /** `text` starts with a brace that is closed by the last character and by no earlier one. */
  ghost predicate Closed(text: string) {
    text != "" && text[0] == '{' && Depth(text) == 0 && forall k :: 0 < k < |text| ==> Depth(text[..k]) != 0
  }

  /** The part of the text the scan is to find: closed, and begun by the first opening brace. */
  ghost predicate Found(text: string, i: int, j: int) {
    0 <= i <= j <= |text| && '{' !in text[..i] && Closed(text[i..j])
  }

  method FindBrace(text: string) returns (start: int)
    ensures start == -1 ==> '{' !in text
    ensures start != -1 ==> 0 <= start < |text| && text[start] == '{' && '{' !in text[..start]
  {
    start := 0;
    while start < |text|
      invariant 0 <= start <= |text| && '{' !in text[..start]
    {
      if text[start] == '{' {
        return;
      }
      start := start + 1;
    }
    start := -1;
  }

  /** The part from the first opening brace to where its depth first returns to zero. */
  method BraceSpan(text: string) returns (r: Option<string>)
    ensures r.Some? ==> exists i, j :: Found(text, i, j) && r.value == text[i..j]
    ensures r.None? ==> forall i, j :: !Found(text, i, j)
  {
    var start := FindBrace(text);
    if start < 0 {
      return None;
    }
    var depth := 0;
    var i := start;
    while i < |text|
      invariant start <= i <= |text| && depth == Depth(text[start..i])
      invariant if i == start then depth == 0 else depth > 0
      invariant forall k :: start < k <= i ==> Depth(text[start..k]) != 0
    {
      DepthStep(text, start, i);
      if text[i] == '{' {
        depth := depth + 1;
      } else if text[i] == '}' {
        depth := depth - 1;
        if depth == 0 {
          ClosedHere(text, start, i + 1);
          assert Found(text, start, i + 1);
          return Some(text[start..i + 1]);
        }
      }
      i := i + 1;
    }
    NeverClosed(text, start);
    r := None;
  }

  lemma DepthStep(text: string, start: nat, i: nat)
    requires start <= i < |text|
    ensures Depth(text[start..i + 1]) == Depth(text[start..i]) + if text[i] == '{' then 1 else if text[i]
            == '}' then -1 else 0
  {
    var t := text[start..i + 1];
    assert t[..|t| - 1] == text[start..i];
  }

  lemma ClosedHere(text: string, start: nat, j: nat)
    requires start < j <= |text| && text[start] == '{' && Depth(text[start..j]) == 0
    requires forall k :: start < k < j ==> Depth(text[start..k]) != 0
    ensures Closed(text[start..j])
  {
    var t := text[start..j];
    forall k | 0 < k < |t|
      ensures Depth(t[..k]) != 0
    {
      assert t[..k] == text[start..start + k];
    }
  }

  /** A closed part begins at the first opening brace. */
  lemma StartsAtFirst(text: string, start: nat, i: nat, j: nat)
    requires start < |text| && text[start] == '{' && '{' !in text[..start]
    requires Found(text, i, j)
    ensures i == start
  {
    assert text[i] == text[i..j][0] == '{';
    if i < start {
      InPrefix(text, i, start);
    } else if start < i {
      InPrefix(text, start, i);
    }
  }

  lemma InPrefix(text: string, i: nat, j: nat)
    requires i < j <= |text|
    ensures text[i] in text[..j]
  {
    assert text[..j][i] == text[i];
  }

  lemma NeverClosed(text: string, start: nat)
    requires start < |text| && text[start] == '{' && '{' !in text[..start]
    requires forall k :: start < k <= |text| ==> Depth(text[start..k]) != 0
    ensures forall i, j :: !Found(text, i, j)
  {
    forall i: nat, j: nat
      ensures !Found(text, i, j)
    {
      if Found(text, i, j) {
        StartsAtFirst(text, start, i, j);
      }
    }
  }

  /** The closed part a reply is reduced to is unique. */
  lemma SpanUnique(text: string, i: nat, j: nat, k: nat, l: nat)
    requires Found(text, i, j) && Found(text, k, l)
    ensures i == k && j == l
  {
    assert text[k] == text[k..l][0] == '{';
    StartsAtFirst(text, k, i, j);
    if j < l {
      ClosedEarlier(text, i, j, l);
    } else if l < j {
      ClosedEarlier(text, i, l, j);
    }
  }

  lemma ClosedEarlier(text: string, i: nat, j: nat, l: nat)
    requires i < j < l <= |text| && Depth(text[i..j]) == 0
    ensures !Closed(text[i..l])
  {
    assert text[i..l][..j - i] == text[i..j];
  }

  // ---- which objects the scan finds ------------------------------------------------------------------

  /** Every closing brace has an opening one before it, and all are closed. */
  ghost predicate Nested(text: string) {
    Depth(text) == 0 && forall k :: 0 <= k <= |text| ==> Depth(text[..k]) >= 0
  }

  /** The text of a JSON value: scalars and strings are leaves; each item of an array or object
      carries the text before its value, that is separators, spaces and the key. */
  datatype Json = Leaf(text: string) | Array(items: Items, last: string) | Object(items: Items, last: string)

  datatype Items = End | Item(before: string, value: Json, rest: Items)

  function Text(v: Json): string {
    match v
    case Leaf(text) => text
    case Array(items, last) => "[" + ItemsText(items) + last + "]"
    case Object(items, last) => "{" + (ItemsText(items) + last) + "}"
  }

  /** The text between the braces of an object. */
  function Body(v: Json): string
    requires v.Object?
  {
    ItemsText(v.items) + v.last
  }

  function ItemsText(items: Items): string {
    match items
    case End => ""
    case Item(before, value, rest) => before + Text(value) + ItemsText(rest)
  }

  /** Braces within strings, if any, are nested as well. */
  ghost predicate Tame(v: Json) {
    match v
    case Leaf(text) => Nested(text)
    case Array(items, last) => TameItems(items) && Nested(last)
    case Object(items, last) => TameItems(items) && Nested(last)
  }

  ghost predicate TameItems(items: Items) {
    match items
    case End => true
    case Item(before, value, rest) => Nested(before) && Tame(value) && TameItems(rest)
  }

  lemma {:induction false} DepthConcat(a: string, b: string)
    ensures Depth(a + b) == Depth(a) + Depth(b)
    decreases |b|
  {
    if b == "" {
      assert a + b == a;
    } else {
      DepthConcat(a, b[..|b| - 1]);
      assert (a + b)[..|a + b| - 1] == a + b[..|b| - 1];
    }
  }

  lemma NestedConcat(a: string, b: string)
    requires Nested(a) && Nested(b)
    ensures Nested(a + b)
  {
    DepthConcat(a, b);
    forall k | 0 <= k <= |a + b|
      ensures Depth((a + b)[..k]) >= 0
    {
      if k <= |a| {
        assert (a + b)[..k] == a[..k];
      } else {
        assert (a + b)[..k] == a + b[..k - |a|];
        DepthConcat(a, b[..k - |a|]);
      }
    }
  }

  lemma DepthOfChar(c: char)
    ensures Depth([c]) == if c == '{' then 1 else if c == '}' then -1 else 0
  {
    assert [c][..0] == "";
  }

  lemma PlainChar(c: char)
    requires c != '{' && c != '}'
    ensures Nested([c])
  {
    DepthOfChar(c);
    forall k | 0 <= k <= 1
      ensures Depth([c][..k]) >= 0
    {
      assert [c][..k] == if k == 0 then "" else [c];
    }
  }

  lemma BracesDepth(body: string, k: nat)
    requires 0 < k <= |body| + 1
    ensures Depth(("{" + body + "}")[..k]) == 1 + Depth(body[..k - 1])
  {
    assert ("{" + body + "}")[..k] == "{" + body[..k - 1];
    DepthConcat("{", body[..k - 1]);
    DepthOfChar('{');
  }

  lemma BracesTotal(body: string)
    ensures Depth("{" + body + "}") == Depth(body)
  {
    DepthConcat("{" + body, "}");
    DepthConcat("{", body);
    DepthOfChar('{');
    DepthOfChar('}');
  }

  /** A depth that never returns to zero stays positive, since it changes by at most one. */
  lemma {:induction false} StaysPositive(text: string, k: nat)
    requires text != "" && text[0] == '{' && 0 < k < |text|
    requires forall n :: 0 < n < |text| ==> Depth(text[..n]) != 0
    ensures Depth(text[..k]) > 0
  {
    var t := text[..k];
    if k == 1 {
      assert t == [text[0]];
      DepthOfChar('{');
    } else {
      StaysPositive(text, k - 1);
      assert t[..|t| - 1] == text[..k - 1];
      assert Depth(text[..k]) != 0;
    }
  }

  /** Braces around a text close exactly at its end if and only if the text is nested. */
  lemma ClosedIffNested(body: string)
    ensures Closed("{" + body + "}") <==> Nested(body)
  {
    var t := "{" + body + "}";
    BracesTotal(body);
    if Closed(t) {
      forall k | 0 <= k <= |body|
        ensures Depth(body[..k]) >= 0
      {
        StaysPositive(t, k + 1);
        BracesDepth(body, k + 1);
      }
    }
    if Nested(body) {
      forall k | 0 < k < |t|
        ensures Depth(t[..k]) != 0
      {
        BracesDepth(body, k);
        assert Depth(body[..k - 1]) >= 0;
      }
    }
  }

  lemma BracesNested(body: string)
    requires Nested(body)
    ensures Nested("{" + body + "}")
  {
    var t := "{" + body + "}";
    BracesTotal(body);
    forall k | 0 <= k <= |t|
      ensures Depth(t[..k]) >= 0
    {
      if 0 < k < |t| {
        BracesDepth(body, k);
        assert Depth(body[..k - 1]) >= 0;
      } else {
        assert t[..k] == if k == 0 then "" else t;
      }
    }
  }

  lemma {:induction false} TextNested(v: Json)
    requires Tame(v)
    ensures Nested(Text(v))
    decreases v
  {
    match v {
      case Leaf(_) =>
      case Array(items, last) =>
        ItemsNested(items);
        PlainChar('[');
        PlainChar(']');
        NestedConcat("[", ItemsText(items));
        NestedConcat("[" + ItemsText(items), last);
        NestedConcat("[" + ItemsText(items) + last, "]");
      case Object(items, last) =>
        ItemsNested(items);
        NestedConcat(ItemsText(items), last);
        BracesNested(ItemsText(items) + last);
    }
  }

  lemma {:induction false} ItemsNested(items: Items)
    requires TameItems(items)
    ensures Nested(ItemsText(items))
    decreases items
  {
    match items {
      case End =>
      case Item(before, value, rest) =>
        TextNested(value);
        ItemsNested(rest);
        NestedConcat(before, Text(value));
        NestedConcat(before + Text(value), ItemsText(rest));
    }
  }

  lemma Placed(prose: string, part: string, rest: string)
    ensures (prose + part + rest)[..|prose|] == prose
    ensures forall j :: |prose| <= j <= |prose| + |part| ==> (prose + part + rest)[|prose|..j] == part[..j - |prose|]
  {
    forall j | |prose| <= j <= |prose| + |part|
      ensures (prose + part + rest)[|prose|..j] == part[..j - |prose|]
    {
    }
  }

  /** The part found in a reply is the object it holds if and only if no opening brace precedes the
      object and the braces between its own are nested, strings included. */
  lemma ObjectIsFound(v: Json, prose: string, rest: string)
    requires v.Object?
    ensures Found(prose + Text(v) + rest, |prose|, |prose| + |Text(v)|) <==> '{' !in prose && Nested(Body(v))
  {
    Placed(prose, Text(v), rest);
    assert Text(v)[..|Text(v)|] == Text(v);
    ClosedIffNested(Body(v));
  }

  /** Objects whose keys, strings and separators are each nested on their own are found; so are
      those whose braces only balance across several strings. */
  lemma TameIsNested(v: Json)
    requires v.Object? && Tame(v)
    ensures Nested(Body(v))
  {
    ItemsNested(v.items);
    NestedConcat(ItemsText(v.items), v.last);
  }

  /** Somewhere more braces were closed than opened. */
  ghost predicate Dips(body: string) {
    exists k :: 0 <= k <= |body| && Depth(body[..k]) < 0
  }

  lemma {:induction false} FirstDip(body: string, n: nat) returns (k: nat)
    requires n <= |body| && Depth(body[..n]) < 0
    ensures k <= n && Depth(body[..k]) == -1 && forall m :: 0 <= m < k ==> Depth(body[..m]) >= 0
    decreases n
  {
    if m: nat :| m < n && Depth(body[..m]) < 0 {
      k := FirstDip(body, m);
    } else {
      k := n;
      assert body[..0] == "";
      assert body[..n][..n - 1] == body[..n - 1];
    }
  }

  /** The part found begins at `i` and ends before `n`. */
  ghost predicate EndsBefore(text: string, i: nat, n: nat) {
    exists j :: i <= j < n && Found(text, i, j)
  }

  lemma CutMeansDip(prose: string, body: string, rest: string, j: nat)
    requires |prose| <= j < |prose| + |body| + 2 && Found(prose + ("{" + body + "}") + rest, |prose|, j)
    ensures Dips(body)
  {
    var t, k := "{" + body + "}", j - |prose|;
    Placed(prose, t, rest);
    assert (prose + t + rest)[|prose|..j] == t[..k];
    BracesDepth(body, k);
    assert Depth(body[..k - 1]) < 0;
  }

  lemma DipMeansCut(prose: string, body: string, rest: string)
    requires '{' !in prose && Dips(body)
    ensures EndsBefore(prose + ("{" + body + "}") + rest, |prose|, |prose| + |body| + 2)
  {
    var t := "{" + body + "}";
    var text := prose + t + rest;
    Placed(prose, t, rest);
    var n: nat :| n <= |body| && Depth(body[..n]) < 0;
    var k := FirstDip(body, n);
    CutAt(body, k);
    var j := |prose| + k + 1;
    assert text[|prose|..j] == t[..k + 1];
    assert Found(text, |prose|, j);
  }

  /** After brace-free prose the part found stops inside the object if and only if some closing
      brace in its strings has no opening one before it. */
  lemma ObjectIsCut(v: Json, prose: string, rest: string)
    requires v.Object? && '{' !in prose
    ensures EndsBefore(prose + Text(v) + rest, |prose|, |prose| + |Text(v)|) <==> Dips(Body(v))
  {
    assert Text(v) == "{" + Body(v) + "}";
    if EndsBefore(prose + Text(v) + rest, |prose|, |prose| + |Text(v)|) {
      var j :| |prose| <= j < |prose| + |Text(v)| && Found(prose + Text(v) + rest, |prose|, j);
      CutMeansDip(prose, Body(v), rest, j);
    }
    if Dips(Body(v)) {
      DipMeansCut(prose, Body(v), rest);
    }
  }

  lemma CutAt(body: string, k: nat)
    requires k <= |body| && Depth(body[..k]) == -1 && forall m :: 0 <= m < k ==> Depth(body[..m]) >= 0
    ensures Closed(("{" + body + "}")[..k + 1])
  {
    var t := ("{" + body + "}")[..k + 1];
    BracesDepth(body, k + 1);
    forall n | 0 < n < |t|
      ensures Depth(t[..n]) != 0
    {
      assert t[..n] == ("{" + body + "}")[..n];
      BracesDepth(body, n);
      assert Depth(body[..n - 1]) >= 0;
    }
  }

  /** A closing brace inside a string cuts the object short: a reply in prose, which the JSON parser
      rejects as a whole, so that the scan is reached. */
  lemma BraceInStringCuts()
    ensures var v, prose := Object(Item("\"reason\": ", Leaf("\"}\""), End), ""), "My decision: ";
            !Nested(Body(v)) && EndsBefore(prose + Text(v) + "", |prose|, |prose| + |Text(v)|)
  {
    var v, prose := Object(Item("\"reason\": ", Leaf("\"}\""), End), ""), "My decision: ";
    var start := "\"reason\": \"";
    UnopenedBrace(start, "\"");
    assert Body(v) == start + "}" + "\"";
    ObjectIsCut(v, prose, "");
  }

  lemma UnopenedBrace(before: string, after: string)
    requires '{' !in before && '}' !in before
    ensures Dips(before + "}" + after) && !Nested(before + "}" + after)
  {
    var body, k := before + "}" + after, |before| + 1;
    Braceless(before);
    DepthConcat(before, "}");
    DepthOfChar('}');
    assert body[..k] == before + "}";
    assert Depth(body[..k]) < 0;
  }

  lemma {:induction false} Braceless(text: string)
    requires '{' !in text && '}' !in text
    ensures Nested(text)
  {
    if text != "" {
      var init, c := text[..|text| - 1], text[|text| - 1];
      Braceless(init);
      PlainChar(c);
      NestedConcat(init, [c]);
      assert init + [c] == text;
    }
  }
}
