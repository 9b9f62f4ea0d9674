/**
 * The three string library calls the chat core depends on: JavaScript's `String.prototype.trim`,
 * Go's `html.EscapeString`, and Go's `strconv.Atoi` (with the decimal text a JavaScript template
 * literal makes of a non-negative integer, which is what the client puts in `offset=`).
 */
module Text {
  import opened Wrappers

  /** The characters `trim` removes: ECMAScript WhiteSpace and LineTerminator code points. */
  predicate IsJsSpace(c: char) {
    c == '\t' || c == '\n' || c == '\U{000B}' || c == '\U{000C}' || c == '\r' || c == ' '
    || c == '\U{00A0}' || c == '\U{1680}' || ('\U{2000}' <= c <= '\U{200A}')
    || c == '\U{2028}' || c == '\U{2029}' || c == '\U{202F}' || c == '\U{205F}'
    || c == '\U{3000}' || c == '\U{FEFF}'
  }

  function TrimStart(s: string): (r: string)
    ensures |r| <= |s| && r == s[|s| - |r|..]
    ensures forall i :: 0 <= i < |s| - |r| ==> IsJsSpace(s[i])
    ensures r != [] ==> !IsJsSpace(r[0])
  {
    if s != [] && IsJsSpace(s[0]) then TrimStart(s[1..]) else s
  }

  function TrimEnd(s: string): (r: string)
    ensures |r| <= |s| && r == s[..|r|]
    ensures forall i :: |r| <= i < |s| ==> IsJsSpace(s[i])
    ensures r != [] ==> !IsJsSpace(r[|r| - 1])
  {
    if s != [] && IsJsSpace(s[|s| - 1]) then TrimEnd(s[..|s| - 1]) else s
  }

  /** `s.trim()`: the longest slice of `s` that neither starts nor ends with white space. */
  function Trim(s: string): (r: string)
    ensures |r| <= |TrimStart(s)|
    ensures r == s[|s| - |TrimStart(s)|..|s| - |TrimStart(s)| + |r|]
    ensures r != [] ==> !IsJsSpace(r[0]) && !IsJsSpace(r[|r| - 1])
    ensures forall i :: 0 <= i < |s| - |TrimStart(s)| ==> IsJsSpace(s[i])
    ensures forall i :: |s| - |TrimStart(s)| + |r| <= i < |s| ==> IsJsSpace(s[i])
  {
    var t := TrimStart(s);
    var r := TrimEnd(t);
    SliceOfSuffix(s, |s| - |t|, |r|);
    TailOfSuffix(s, t, |r|);
    r
  }

  /** White space at the end of a suffix is white space at the end of the whole string. */
  lemma TailOfSuffix(s: string, t: string, n: nat)
    requires |t| <= |s| && t == s[|s| - |t|..] && n <= |t|
    requires forall i :: n <= i < |t| ==> IsJsSpace(t[i])
    ensures forall i :: |s| - |t| + n <= i < |s| ==> IsJsSpace(s[i])
  {
    forall i | |s| - |t| + n <= i < |s| ensures IsJsSpace(s[i]) {
      assert s[i] == t[i - (|s| - |t|)];
    }
  }

  lemma SliceOfSuffix(s: string, lo: nat, n: nat)
    requires lo + n <= |s|
    ensures s[lo..][..n] == s[lo..lo + n]
  {
  }

  /** `value.trim().length > 0` holds exactly when `value` has a character that is not white space. */
  lemma TrimEmptyIffBlank(s: string)
    ensures Trim(s) == [] <==> forall i :: 0 <= i < |s| ==> IsJsSpace(s[i])
  {
    var t := TrimStart(s);
    if Trim(s) == [] {
      assert t == [];
    } else {
      var r := Trim(s);
      assert r[0] == t[0] == s[|s| - |t|];
    }
  }

  /** The five replacements Go's `html.EscapeString` makes. */
  function EscapeChar(c: char): string {
    if c == '<' then "&lt;"
    else if c == '>' then "&gt;"
    else if c == '&' then "&amp;"
    else if c == '\'' then "&#39;"
    else if c == '"' then "&#34;"
    else [c]
  }

  predicate IsMarkup(c: char) {
    c == '<' || c == '>' || c == '\'' || c == '"'
  }

  /** `html.EscapeString(s)`: the text is free of markup characters. */
  function HtmlEscape(s: string): (r: string)
    ensures forall i :: 0 <= i < |r| ==> !IsMarkup(r[i])
    ensures (forall i :: 0 <= i < |s| ==> !IsMarkup(s[i]) && s[i] != '&') ==> r == s
  {
    if s == [] then []
    else
      var rest := HtmlEscape(s[1..]);
      var e := EscapeChar(s[0]);
      assert forall i :: 0 <= i < |e| ==> !IsMarkup(e[i]);
      assert forall i :: |e| <= i < |e + rest| ==> (e + rest)[i] == rest[i - |e|];
      e + rest
  }

  /** The inverse of HtmlEscape on its five entities (what `html.UnescapeString` does to them). */
  function HtmlUnescape(s: string): (r: string)
    decreases |s|
  {
    if s == [] then []
    else if |s| >= 4 && s[..4] == "&lt;" then "<" + HtmlUnescape(s[4..])
    else if |s| >= 4 && s[..4] == "&gt;" then ">" + HtmlUnescape(s[4..])
    else if |s| >= 5 && s[..5] == "&amp;" then "&" + HtmlUnescape(s[5..])
    else if |s| >= 5 && s[..5] == "&#39;" then "'" + HtmlUnescape(s[5..])
    else if |s| >= 5 && s[..5] == "&#34;" then "\"" + HtmlUnescape(s[5..])
    else [s[0]] + HtmlUnescape(s[1..])
  }

  /** Unescaping an escaped character gives back that character and goes on with the rest. */
  lemma UnescapeEscapedChar(c: char, rest: string)
    ensures HtmlUnescape(EscapeChar(c) + rest) == [c] + HtmlUnescape(rest)
  {
    if c == '<' || c == '>' {
      UnescapeShortEntity(c, rest);
    } else if c == '&' || c == '\'' || c == '"' {
      UnescapeLongEntity(c, rest);
    } else {
      UnescapePlain(c, rest);
    }
  }

  lemma UnescapeShortEntity(c: char, rest: string)
    requires c == '<' || c == '>'
    ensures HtmlUnescape(EscapeChar(c) + rest) == [c] + HtmlUnescape(rest)
  {
    var t := EscapeChar(c) + rest;
    assert t[4..] == rest;
    if c == '<' {
      assert t[..4] == "&lt;";
    } else {
      assert t[..4] == "&gt;";
    }
  }

  lemma UnescapeLongEntity(c: char, rest: string)
    requires c == '&' || c == '\'' || c == '"'
    ensures HtmlUnescape(EscapeChar(c) + rest) == [c] + HtmlUnescape(rest)
  {
    var t := EscapeChar(c) + rest;
    assert t[5..] == rest;
    assert t[..4] != "&lt;" && t[..4] != "&gt;" by {
      assert t[1] != 'l' && t[1] != 'g';
    }
    if c == '&' {
      assert t[..5] == "&amp;";
    } else if c == '\'' {
      assert t[..5] != "&amp;" by { assert t[1] == '#'; }
      assert t[..5] == "&#39;";
    } else {
      assert t[..5] != "&amp;" && t[..5] != "&#39;" by { assert t[1] == '#' && t[3] == '4'; }
      assert t[..5] == "&#34;";
    }
  }

  lemma UnescapePlain(c: char, rest: string)
    requires !IsMarkup(c) && c != '&'
    ensures HtmlUnescape(EscapeChar(c) + rest) == [c] + HtmlUnescape(rest)
  {
    var t := EscapeChar(c) + rest;
    assert t[0] == c && t[1..] == rest;
    assert |t| >= 4 ==> t[..4][0] == c;
    assert |t| >= 5 ==> t[..5][0] == c;
  }

  /** Escaping loses nothing: the stored text unescapes back to what the client sent. */
  lemma {:induction false} HtmlEscapeRoundTrip(s: string)
    ensures HtmlUnescape(HtmlEscape(s)) == s
  {
    if s != [] {
      HtmlEscapeRoundTrip(s[1..]);
      UnescapeEscapedChar(s[0], HtmlEscape(s[1..]));
      assert s == [s[0]] + s[1..];
    }
  }

  predicate IsDigit(c: char) {
    '0' <= c <= '9'
  }

  predicate AllDigits(s: string) {
    forall i :: 0 <= i < |s| ==> IsDigit(s[i])
  }

  function DigitsValue(s: string): nat
    requires AllDigits(s)
  {
    if s == [] then 0 else DigitsValue(s[..|s| - 1]) * 10 + (s[|s| - 1] as int - '0' as int)
  }

  const MinInt64: int := -0x8000_0000_0000_0000
  const MaxInt64: int := 0x7FFF_FFFF_FFFF_FFFF

  /**
   * Go's `strconv.Atoi` on a 64-bit platform: an optional `+` or `-` followed by at least one
   * decimal digit, whose value lies in the int64 range; anything else is an error (None).
   */
  function Atoi(s: string): (r: Option<int>)
    ensures r.Some? ==> MinInt64 <= r.value <= MaxInt64
    ensures r.Some? ==> |s| > 0 && (IsDigit(s[0]) || s[0] == '+' || s[0] == '-')
    ensures r.Some? ==> forall i :: 1 <= i < |s| ==> IsDigit(s[i])
    ensures r.Some? && (s[0] == '+' || s[0] == '-') ==> |s| > 1
  {
    var signed := |s| > 0 && (s[0] == '+' || s[0] == '-');
    var body := if signed then s[1..] else s;
    if body == [] || !AllDigits(body) then None
    else
      var v: int := DigitsValue(body);
      var n := if signed && s[0] == '-' then -v else v;
      if n < MinInt64 || n > MaxInt64 then None else Some(n)
  }

  function DigitChar(d: nat): char
    requires d < 10
  {
    ('0' as int + d) as char
  }

  /** The shortest decimal text of `n`, as `${n}` writes a non-negative integer. */
  function Decimal(n: nat): (r: string)
    ensures r != [] && AllDigits(r)
    ensures DigitsValue(r) == n
  {
    if n < 10 then [DigitChar(n)]
    else
      var r := Decimal(n / 10) + [DigitChar(n % 10)];
      assert r[..|r| - 1] == Decimal(n / 10);
      r
  }

  /** `k` zero digits. */
  function Zeros(k: nat): (r: string)
    ensures |r| == k && AllDigits(r)
    ensures forall i :: 0 <= i < k ==> r[i] == '0'
  {
    if k == 0 then [] else Zeros(k - 1) + "0"
  }

  lemma {:induction false} ZerosValue(k: nat)
    ensures DigitsValue(Zeros(k)) == 0
  {
    if k > 0 {
      ZerosValue(k - 1);
      assert Zeros(k)[..k - 1] == Zeros(k - 1);
    }
  }

  /** Leading zeros do not change the value of a digit string. */
  lemma {:induction false} LeadingZerosValue(k: nat, d: string)
    requires AllDigits(d)
    ensures AllDigits(Zeros(k) + d) && DigitsValue(Zeros(k) + d) == DigitsValue(d)
    decreases |d|
  {
    var t := Zeros(k) + d;
    assert AllDigits(t) by {
      forall i | 0 <= i < |t| ensures IsDigit(t[i]) {
        if i >= k { assert t[i] == d[i - k]; }
      }
    }
    if d == [] {
      assert t == Zeros(k);
      ZerosValue(k);
    } else {
      var front := d[..|d| - 1];
      assert t[..|t| - 1] == Zeros(k) + front;
      assert t[|t| - 1] == d[|d| - 1];
      LeadingZerosValue(k, front);
    }
  }

  /**
   * Every numeral `strconv.Atoi` accepts: an optional sign, any number of leading zeros and the
   * decimal digits of the magnitude. It parses to its value when that lies in the int64 range,
   * and fails otherwise.
   */
  lemma AtoiNumeral(sign: string, k: nat, n: nat)
    requires sign == "" || sign == "+" || sign == "-"
    ensures var v := if sign == "-" then -(n as int) else n as int;
            Atoi(sign + (Zeros(k) + Decimal(n))) == if MinInt64 <= v <= MaxInt64 then Some(v) else None
  {
    LeadingZerosValue(k, Decimal(n));
    AtoiSign(sign, Zeros(k) + Decimal(n));
  }

  lemma AtoiSign(sign: string, body: string)
    requires sign == "" || sign == "+" || sign == "-"
    requires body != [] && AllDigits(body)
    ensures var v := if sign == "-" then -(DigitsValue(body) as int) else DigitsValue(body) as int;
            Atoi(sign + body) == if MinInt64 <= v <= MaxInt64 then Some(v) else None
  {
    if sign == "" {
      assert sign + body == body;
      AtoiDigits(body);
    } else {
      assert sign == [sign[0]];
      AtoiSigned(sign[0], body);
    }
  }

  lemma AtoiDigits(body: string)
    requires body != [] && AllDigits(body)
    ensures Atoi(body) == if DigitsValue(body) <= MaxInt64 then Some(DigitsValue(body) as int) else None
  {
    assert IsDigit(body[0]);
  }

  lemma AtoiSigned(c: char, body: string)
    requires (c == '+' || c == '-') && body != [] && AllDigits(body)
    ensures var v := if c == '-' then -(DigitsValue(body) as int) else DigitsValue(body) as int;
            Atoi([c] + body) == if MinInt64 <= v <= MaxInt64 then Some(v) else None
  {
    var s := [c] + body;
    assert s[0] == c && s[1..] == body;
  }

  /** The offset the client writes into the query string is the offset the server reads back. */
  lemma AtoiDecimal(n: nat)
    requires n <= MaxInt64
    ensures Atoi(Decimal(n)) == Some(n)
  {
    var s := Decimal(n);
    assert IsDigit(s[0]);
  }
}
