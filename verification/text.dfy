/** The two string operations the chat path applies to user text:
    String.prototype.trim on the input box value, and `esc`, which escapes
    text for HTML by serialising a DOM text node (video.js lines 4-9). */
module Text {

  /** ECMAScript WhiteSpace and LineTerminator code points, the set that
      String.prototype.trim removes (tab, vertical tab, form feed, space,
      no-break space, byte order mark, the Zs category, LF, CR, LS, PS). */
  predicate IsJsSpace(c: char) {
    c == '\t' || c == '\n' || c == '\U{000B}' || c == '\U{000C}' || c == '\r' ||
    c == ' ' || c == '\U{00A0}' || c == '\U{1680}' || ('\U{2000}' <= c <= '\U{200A}') ||
    c == '\U{2028}' || c == '\U{2029}' || c == '\U{202F}' || c == '\U{205F}' ||
    c == '\U{3000}' || c == '\U{FEFF}'
  }

  predicate AllSpace(s: string) {
    forall i :: 0 <= i < |s| ==> IsJsSpace(s[i])
  }

  /** s without its leading white space. */
  function TrimStart(s: string): (r: string)
    ensures |r| <= |s| && r == s[|s| - |r|..]
    ensures forall i :: 0 <= i < |s| - |r| ==> IsJsSpace(s[i])
    ensures r != [] ==> !IsJsSpace(r[0])
  {
    if s != [] && IsJsSpace(s[0]) then TrimStart(s[1..]) else s
  }

  /** s without its trailing white space. */
  function TrimEnd(s: string): (r: string)
    ensures |r| <= |s| && r == s[..|r|]
    ensures forall i :: |r| <= i < |s| ==> IsJsSpace(s[i])
    ensures r != [] ==> !IsJsSpace(r[|r| - 1])
  {
    if s != [] && IsJsSpace(s[|s| - 1]) then TrimEnd(s[..|s| - 1]) else s
  }

  /** The leading part TrimStart removes is all white space. */
  lemma TrimStartRemovesSpace(s: string)
    ensures AllSpace(s[..|s| - |TrimStart(s)|])
  {
    var k := |s| - |TrimStart(s)|;
    forall i | 0 <= i < k ensures IsJsSpace(s[..k][i]) {
      assert s[..k][i] == s[i];
    }
  }

  /** The trailing part TrimEnd removes is all white space. */
  lemma TrimEndRemovesSpace(s: string)
    ensures AllSpace(s[|TrimEnd(s)|..])
  {
    var k := |TrimEnd(s)|;
    forall i | 0 <= i < |s| - k ensures IsJsSpace(s[k..][i]) {
      assert s[k..][i] == s[k + i];
    }
  }

  /** String.prototype.trim: the text between the leading and trailing white
      space, beginning and ending with a non-space character. */
  function Trim(s: string): (r: string)
    ensures |r| <= |s|
    ensures r != [] ==> !IsJsSpace(r[0]) && !IsJsSpace(r[|r| - 1])
  {
    TrimEnd(TrimStart(s))
  }

  /** The trimmed text is a slice of s with only white space outside it. */
  lemma TrimIsSlice(s: string) returns (i: nat, j: nat)
    ensures i <= j <= |s| && Trim(s) == s[i..j]
    ensures AllSpace(s[..i]) && AllSpace(s[j..])
  {
    var t := TrimStart(s);
    var r := TrimEnd(t);
    i, j := |s| - |t|, |s| - |t| + |r|;
    assert Trim(s) == s[i..j] by {
      assert t == s[i..];
      assert r == t[..|r|];
    }
    assert AllSpace(s[..i]) by {
      TrimStartRemovesSpace(s);
    }
    assert AllSpace(s[j..]) by {
      TrimEndRemovesSpace(t);
      assert s[j..] == t[|r|..];
    }
  }

  /** The trimmed text is empty exactly when the input is all white space;
      this is the `!msg` test of sendMessage. */
  lemma {:induction false} TrimEmptyIffBlank(s: string)
    ensures Trim(s) == [] <==> AllSpace(s)
  {
    var r := Trim(s);
    var i, j := TrimIsSlice(s);
    if r == [] {
      forall k | 0 <= k < |s| ensures IsJsSpace(s[k]) {
        if k < i { assert s[k] == s[..i][k]; } else { assert s[k] == s[j..][k - j]; }
      }
    } else {
      assert r[0] == s[i];
    }
  }

  /** Trimming a trimmed text changes nothing. */
  lemma TrimIdempotent(s: string)
    ensures Trim(Trim(s)) == Trim(s)
  {
    var r := Trim(s);
    if r != [] {
      assert TrimStart(r) == r;
      assert TrimEnd(r) == r;
    }
  }

  /** How a DOM text node serialises one character into HTML. */
  function EscapeChar(c: char): string {
    if c == '&' then "&amp;"
    else if c == '\U{00A0}' then "&nbsp;"
    else if c == '<' then "&lt;"
    else if c == '>' then "&gt;"
    else [c]
  }

  /** `esc`: the innerHTML of a paragraph holding one text node with s. The
      result holds no markup character and no raw no-break space. */
  function Escape(s: string): (r: string)
    ensures |r| >= |s|
    ensures forall i :: 0 <= i < |r| ==> r[i] != '<' && r[i] != '>' && r[i] != '\U{00A0}'
  {
    if s == [] then [] else EscapeChar(s[0]) + Escape(s[1..])
  }

  /** Text holding a markup character does not survive escaping unchanged. */
  lemma EscapeChangesMarkup(s: string)
    ensures ('<' in s || '>' in s) ==> Escape(s) != s
  {
    if '<' in s || '>' in s {
      var k :| 0 <= k < |s| && (s[k] == '<' || s[k] == '>');
      assert Escape(s)[k] != s[k];
    }
  }

  /** Decoding of the four character references that Escape produces, as an
      HTML parser reads them back in text content. */
  function Unescape(t: string): string {
    if t == [] then []
    else if t[0] != '&' then [t[0]] + Unescape(t[1..])
    else if |t| >= 5 && t[..5] == "&amp;" then "&" + Unescape(t[5..])
    else if |t| >= 6 && t[..6] == "&nbsp;" then "\U{00A0}" + Unescape(t[6..])
    else if |t| >= 4 && t[..4] == "&lt;" then "<" + Unescape(t[4..])
    else if |t| >= 4 && t[..4] == "&gt;" then ">" + Unescape(t[4..])
    else [t[0]] + Unescape(t[1..])
  }

  lemma UnescapeAfterChar(c: char, rest: string)
    ensures Unescape(EscapeChar(c) + rest) == [c] + Unescape(rest)
  {
    var t := EscapeChar(c) + rest;
    if c == '&' {
      assert t[..5] == "&amp;" && t[5..] == rest;
    } else if c == '\U{00A0}' {
      assert !(|t| >= 5 && t[..5] == "&amp;") by { assert t[1] == 'n'; }
      assert t[..6] == "&nbsp;" && t[6..] == rest;
    } else if c == '<' {
      assert !(|t| >= 5 && t[..5] == "&amp;") by { assert t[1] == 'l'; }
      assert !(|t| >= 6 && t[..6] == "&nbsp;") by { assert t[1] == 'l'; }
      assert t[..4] == "&lt;" && t[4..] == rest;
    } else if c == '>' {
      assert !(|t| >= 5 && t[..5] == "&amp;") by { assert t[1] == 'g'; }
      assert !(|t| >= 6 && t[..6] == "&nbsp;") by { assert t[1] == 'g'; }
      assert !(|t| >= 4 && t[..4] == "&lt;") by { assert t[1] == 'g'; }
      assert t[..4] == "&gt;" && t[4..] == rest;
    } else {
      assert t[0] == c && t[1..] == rest;
    }
  }

  /** Escaping loses nothing: the text a receiver decodes from an escaped
      string is the original. */
  lemma {:induction false} UnescapeEscape(s: string)
    ensures Unescape(Escape(s)) == s
  {
    if s != [] {
      UnescapeAfterChar(s[0], Escape(s[1..]));
      UnescapeEscape(s[1..]);
    }
  }
}
