/** `escapeHtml`: the text of a note is escaped before it is placed inside
    the markup of its card. Each of `& < > " '` becomes an entity; every
    other character is kept. */
module Html {

  predicate IsSpecial(c: char)
  {
    c == '&' || c == '<' || c == '>' || c == '"' || c == '\''
  }

  /** The replacement the lookup table gives one character. */
  function Entity(c: char): (e: string)
    ensures IsSpecial(c) ==> |e| >= 4 && e[0] == '&' && e[|e| - 1] == ';'
    ensures !IsSpecial(c) ==> e == [c]
  {
    match c
    case '&' => "&amp;"
    case '<' => "&lt;"
    case '>' => "&gt;"
    case '"' => "&quot;"
    case '\'' => "&#039;"
    case _ => [c]
  }

  /** Every special character replaced by its entity, globally. */
  function EscapeHtml(s: string): (r: string)
    ensures |r| >= |s|
    ensures forall i :: 0 <= i < |r| ==> r[i] != '<' && r[i] != '>' && r[i] != '"' && r[i] != '\''
    ensures (forall i :: 0 <= i < |s| ==> !IsSpecial(s[i])) ==> r == s
  {
    if s == [] then [] else Entity(s[0]) + EscapeHtml(s[1..])
  }

  /** Escaping works character by character. */
  lemma {:induction false} EscapeHtmlAppend(a: string, b: string)
    ensures EscapeHtml(a + b) == EscapeHtml(a) + EscapeHtml(b)
  {
    if a == [] {
      assert a + b == b;
    } else {
      assert (a + b)[0] == a[0] && (a + b)[1..] == a[1..] + b;
      calc {
        EscapeHtml(a + b);
        Entity(a[0]) + EscapeHtml(a[1..] + b);
        { EscapeHtmlAppend(a[1..], b); }
        Entity(a[0]) + (EscapeHtml(a[1..]) + EscapeHtml(b));
        (Entity(a[0]) + EscapeHtml(a[1..])) + EscapeHtml(b);
      }
    }
  }

  predicate StartsWith(t: string, p: string)
  {
    |p| <= |t| && t[..|p|] == p
  }

  /** The inverse of `EscapeHtml`: the five entities it produces are read
      back as their characters, everything else is copied. */
  function UnescapeHtml(t: string): (s: string)
    ensures |s| <= |t|
    decreases |t|
  {
    if t == [] then []
    else if StartsWith(t, "&amp;") then ['&'] + UnescapeHtml(t[5..])
    else if StartsWith(t, "&lt;") then ['<'] + UnescapeHtml(t[4..])
    else if StartsWith(t, "&gt;") then ['>'] + UnescapeHtml(t[4..])
    else if StartsWith(t, "&quot;") then ['"'] + UnescapeHtml(t[6..])
    else if StartsWith(t, "&#039;") then ['\''] + UnescapeHtml(t[6..])
    else [t[0]] + UnescapeHtml(t[1..])
  }

  /** Decoding one escaped character followed by any text. */
  lemma UnescapeEntity(c: char, rest: string)
    ensures UnescapeHtml(Entity(c) + rest) == [c] + UnescapeHtml(rest)
  {
    var e := Entity(c);
    var t := e + rest;
    assert t[|e|..] == rest;
    assert t[..|e|] == e;
    if !IsSpecial(c) {
      assert t[0] == c && t[1..] == rest;
      assert !StartsWith(t, "&amp;") && !StartsWith(t, "&lt;") && !StartsWith(t, "&gt;");
      assert !StartsWith(t, "&quot;") && !StartsWith(t, "&#039;");
    } else if c == '&' {
      assert StartsWith(t, "&amp;");
    } else if c == '<' {
      assert t[1] == 'l' && !StartsWith(t, "&amp;") && StartsWith(t, "&lt;");
    } else if c == '>' {
      assert t[1] == 'g' && !StartsWith(t, "&amp;") && !StartsWith(t, "&lt;") && StartsWith(t, "&gt;");
    } else if c == '"' {
      assert t[1] == 'q' && !StartsWith(t, "&amp;") && !StartsWith(t, "&lt;") && !StartsWith(t, "&gt;");
      assert StartsWith(t, "&quot;");
    } else {
      assert t[1] == '#' && !StartsWith(t, "&amp;") && !StartsWith(t, "&lt;") && !StartsWith(t, "&gt;");
      assert !StartsWith(t, "&quot;") && StartsWith(t, "&#039;");
    }
  }

  /** Round trip: escaping loses no information. */
  lemma {:induction false} UnescapeEscape(s: string)
    ensures UnescapeHtml(EscapeHtml(s)) == s
  {
    if s != [] {
      UnescapeEntity(s[0], EscapeHtml(s[1..]));
      UnescapeEscape(s[1..]);
      assert s == [s[0]] + s[1..];
    }
  }

  /** Hence two texts that escape alike are equal. */
  lemma EscapeHtmlInjective(a: string, b: string)
    requires EscapeHtml(a) == EscapeHtml(b)
    ensures a == b
  {
    UnescapeEscape(a);
    UnescapeEscape(b);
  }
}
