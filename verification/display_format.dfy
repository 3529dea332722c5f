/** The display helpers that both dashboard scripts define identically:
    `escapeHtml`, `shortId`, `secondsToMmSs`, `formatDuration` and the
    recognition of boolean-like values behind `formatBoolish` and
    `formatBoolishText`. Timestamps arrive already parsed: `Some(ms)` when
    the field is truthy and `new Date(...)` gives a valid time. */
module DisplayFormat {
  import opened Common
  import opened Text
  import opened Json

  /** `escapeHtml(str)` on `String(str)`: five `replaceAll`s, `&` first,
      written as the pipeline of its stages. */
  function EscapeHtml(s: string): string {
    EscapeLt(ReplaceChar(s, '&', "&amp;"))
  }

  function EscapeLt(s: string): string {
    EscapeGt(ReplaceChar(s, '<', "&lt;"))
  }

  function EscapeGt(s: string): string {
    EscapeQuot(ReplaceChar(s, '>', "&gt;"))
  }

  function EscapeQuot(s: string): string {
    EscapeApos(ReplaceChar(s, '"', "&quot;"))
  }

  function EscapeApos(s: string): string {
    ReplaceChar(s, '\'', "&#039;")
  }

  /** The entity each character becomes. */
  function EscapeChar(c: char): string {
    if c == '&' then "&amp;"
    else if c == '<' then "&lt;"
    else if c == '>' then "&gt;"
    else if c == '"' then "&quot;"
    else if c == '\'' then "&#039;"
    else [c]
  }

  /** Escaping character by character. */
  function EscapeEach(s: string): string {
    if s == [] then [] else EscapeChar(s[0]) + EscapeEach(s[1..])
  }

  predicate HtmlSafe(s: string) {
    forall i :: 0 <= i < |s| ==> s[i] != '<' && s[i] != '>' && s[i] != '"' && s[i] != '\''
  }

  lemma EscapeAposAppend(a: string, b: string)
    ensures EscapeApos(a + b) == EscapeApos(a) + EscapeApos(b)
  {
    ReplaceCharAppend(a, b, '\'', "&#039;");
  }

  lemma EscapeQuotAppend(a: string, b: string)
    ensures EscapeQuot(a + b) == EscapeQuot(a) + EscapeQuot(b)
  {
    ReplaceCharAppend(a, b, '"', "&quot;");
    EscapeAposAppend(ReplaceChar(a, '"', "&quot;"), ReplaceChar(b, '"', "&quot;"));
  }

  lemma EscapeGtAppend(a: string, b: string)
    ensures EscapeGt(a + b) == EscapeGt(a) + EscapeGt(b)
  {
    ReplaceCharAppend(a, b, '>', "&gt;");
    EscapeQuotAppend(ReplaceChar(a, '>', "&gt;"), ReplaceChar(b, '>', "&gt;"));
  }

  lemma EscapeLtAppend(a: string, b: string)
    ensures EscapeLt(a + b) == EscapeLt(a) + EscapeLt(b)
  {
    ReplaceCharAppend(a, b, '<', "&lt;");
    EscapeGtAppend(ReplaceChar(a, '<', "&lt;"), ReplaceChar(b, '<', "&lt;"));
  }

  lemma EscapeHtmlAppend(a: string, b: string)
    ensures EscapeHtml(a + b) == EscapeHtml(a) + EscapeHtml(b)
  {
    ReplaceCharAppend(a, b, '&', "&amp;");
    EscapeLtAppend(ReplaceChar(a, '&', "&amp;"), ReplaceChar(b, '&', "&amp;"));
  }

  lemma ReplaceCharSingle(c: char, x: char, rep: string)
    ensures ReplaceChar([c], x, rep) == if c == x then rep else [c]
  {
    assert [c][1..] == [];
  }

  /** Each stage leaves alone a text without its character, and turns a
      lone character into its entity or keeps it. */
  lemma EscapeAposChar(c: char)
    ensures EscapeApos([c]) == if c == '\'' then "&#039;" else [c]
  {
    ReplaceCharSingle(c, '\'', "&#039;");
  }

  lemma EscapeQuotChar(c: char)
    requires c != '\''
    ensures EscapeQuot([c]) == if c == '"' then "&quot;" else [c]
  {
    ReplaceCharSingle(c, '"', "&quot;");
    if c == '"' {
      ReplaceCharAbsent("&quot;", '\'', "&#039;");
    } else {
      EscapeAposChar(c);
    }
  }

  lemma EscapeGtChar(c: char)
    requires c != '\'' && c != '"'
    ensures EscapeGt([c]) == if c == '>' then "&gt;" else [c]
  {
    ReplaceCharSingle(c, '>', "&gt;");
    if c == '>' {
      ReplaceCharAbsent("&gt;", '"', "&quot;");
      ReplaceCharAbsent("&gt;", '\'', "&#039;");
    } else {
      EscapeQuotChar(c);
    }
  }

  lemma EscapeLtChar(c: char)
    requires c != '\'' && c != '"' && c != '>'
    ensures EscapeLt([c]) == if c == '<' then "&lt;" else [c]
  {
    ReplaceCharSingle(c, '<', "&lt;");
    if c == '<' {
      EscapeGtPlain("&lt;");
    } else {
      EscapeGtChar(c);
    }
  }

  lemma EscapeGtPlain(t: string)
    requires '>' !in t && '"' !in t && '\'' !in t
    ensures EscapeGt(t) == t
  {
    ReplaceCharAbsent(t, '>', "&gt;");
    ReplaceCharAbsent(t, '"', "&quot;");
    ReplaceCharAbsent(t, '\'', "&#039;");
  }

  /** A text without any of the four later characters passes the later
      stages unchanged. */
  lemma EscapeLtPlain(t: string)
    requires '<' !in t && '>' !in t && '"' !in t && '\'' !in t
    ensures EscapeLt(t) == t
  {
    ReplaceCharAbsent(t, '<', "&lt;");
    EscapeGtPlain(t);
  }

  /** A text without any of the five characters is left as it is. */
  lemma EscapeHtmlPlain(t: string)
    requires '&' !in t && '<' !in t && '>' !in t && '"' !in t && '\'' !in t
    ensures EscapeHtml(t) == t
  {
    ReplaceCharAbsent(t, '&', "&amp;");
    EscapeLtPlain(t);
  }

  /** The entities the earlier replacements produce hold none of the later
      patterns, so one character escapes to its own entity. */
  lemma EscapeHtmlChar(c: char)
    ensures EscapeHtml([c]) == EscapeChar(c)
  {
    ReplaceCharSingle(c, '&', "&amp;");
    if c == '&' {
      EscapeLtPlain("&amp;");
    } else if c == '\'' {
      ReplaceCharSingle(c, '<', "&lt;");
      ReplaceCharSingle(c, '>', "&gt;");
      ReplaceCharSingle(c, '"', "&quot;");
      EscapeAposChar(c);
    } else if c == '"' {
      ReplaceCharSingle(c, '<', "&lt;");
      ReplaceCharSingle(c, '>', "&gt;");
      EscapeQuotChar(c);
    } else if c == '>' {
      ReplaceCharSingle(c, '<', "&lt;");
      EscapeGtChar(c);
    } else {
      EscapeLtChar(c);
    }
  }

  /** Because `&` goes first, the chain of replacements is the same as
      escaping each character on its own: nothing is escaped twice. */
  lemma {:induction false} EscapeHtmlPerChar(s: string)
    ensures EscapeHtml(s) == EscapeEach(s)
  {
    if s != [] {
      assert s == [s[0]] + s[1..];
      EscapeHtmlAppend([s[0]], s[1..]);
      EscapeHtmlChar(s[0]);
      EscapeHtmlPerChar(s[1..]);
    }
  }

  lemma {:induction false} EscapeEachSafe(s: string)
    ensures HtmlSafe(EscapeEach(s))
  {
    if s != [] {
      EscapeEachSafe(s[1..]);
      var e := EscapeChar(s[0]);
      assert HtmlSafe(e);
    }
  }

  /** The output holds none of `<`, `>`, `"` and `'`. */
  lemma EscapeHtmlSafe(s: string)
    ensures HtmlSafe(EscapeHtml(s))
  {
    EscapeHtmlPerChar(s);
    EscapeEachSafe(s);
  }

  /** Reading the five entities back. */
  function UnescapeHtml(t: string): string
    decreases |t|
  {
    if t == [] then []
    else if |t| >= 5 && t[..5] == "&amp;" then "&" + UnescapeHtml(t[5..])
    else if |t| >= 4 && t[..4] == "&lt;" then "<" + UnescapeHtml(t[4..])
    else if |t| >= 4 && t[..4] == "&gt;" then ">" + UnescapeHtml(t[4..])
    else if |t| >= 6 && t[..6] == "&quot;" then "\"" + UnescapeHtml(t[6..])
    else if |t| >= 6 && t[..6] == "&#039;" then "'" + UnescapeHtml(t[6..])
    else [t[0]] + UnescapeHtml(t[1..])
  }

  lemma UnescapeEscapeChar(c: char, rest: string)
    ensures UnescapeHtml(EscapeChar(c) + rest) == [c] + UnescapeHtml(rest)
  {
    var e := EscapeChar(c);
    var t := e + rest;
    assert t[..|e|] == e && t[|e|..] == rest;
    if c == '&' {
    } else if c == '<' {
      assert |t| >= 5 ==> t[..5] != "&amp;" by { assert t[1] == 'l'; }
    } else if c == '>' {
      assert |t| >= 5 ==> t[..5] != "&amp;" by { assert t[1] == 'g'; }
      assert t[..4] != "&lt;" by { assert t[1] == 'g'; }
    } else if c == '"' {
      assert t[1] == 'q';
      assert t[..5] != "&amp;" && t[..4] != "&lt;" && t[..4] != "&gt;";
    } else if c == '\'' {
      assert t[1] == '#';
      assert t[..5] != "&amp;" && t[..4] != "&lt;" && t[..4] != "&gt;" && t[..6] != "&quot;";
    } else {
      assert t[0] == c && t[1..] == rest;
      assert |t| >= 4 ==> t[..4][0] == c;
      assert |t| >= 5 ==> t[..5][0] == c;
      assert |t| >= 6 ==> t[..6][0] == c;
    }
  }

  /** Escaping loses nothing: the original text can be read back. */
  lemma {:induction false} EscapeHtmlRoundTrip(s: string)
    ensures UnescapeHtml(EscapeHtml(s)) == s
  {
    EscapeHtmlPerChar(s);
    EscapeEachRoundTrip(s);
  }

  lemma {:induction false} EscapeEachRoundTrip(s: string)
    ensures UnescapeHtml(EscapeEach(s)) == s
  {
    if s != [] {
      UnescapeEscapeChar(s[0], EscapeEach(s[1..]));
      EscapeEachRoundTrip(s[1..]);
    }
  }

  /** An existing entity is escaped again. */
  lemma EscapeHtmlDoubleEscapes(rest: string)
    requires '&' !in rest && '<' !in rest && '>' !in rest && '"' !in rest && '\'' !in rest
    ensures EscapeHtml("&" + rest) == "&amp;" + rest
  {
    EscapeHtmlAppend("&", rest);
    EscapeHtmlChar('&');
    assert "&" == ['&'];
    EscapeHtmlPlain(rest);
  }

  /** "&lt;" becomes "&amp;lt;". */
  lemma EscapeHtmlDoubleEscapesLt()
    ensures EscapeHtml("&lt;") == "&amp;lt;"
  {
    EscapeHtmlDoubleEscapes("lt;");
    assert "&" + "lt;" == "&lt;";
  }

  /** `shortId(id)`: an id shorter than 12 characters (the empty id
      included) is shown whole; a longer one as its first 8 characters, an
      ellipsis and its last 4. */
  function ShortId(id: string): (r: string)
    ensures |id| < 12 ==> r == id
    ensures |id| >= 12 ==>
              |r| == 13 && r[..8] == id[..8] && r[8] == '…' && r[9..] == id[|id| - 4..]
  {
    if |id| < 12 then id else id[..8] + "…" + id[|id| - 4..]
  }

  /** Shortening twice is shortening once. */
  lemma ShortIdIdempotent(id: string)
    ensures ShortId(ShortId(id)) == ShortId(id)
  {
    var r := ShortId(id);
    if |id| >= 12 {
      assert r == r[..8] + "…" + r[9..];
    }
  }

  /** The ids shown unchanged: the short ones, and 13-character ones that
      already carry the ellipsis at position 8. */
  lemma ShortIdUnchangedIff(id: string)
    ensures ShortId(id) == id <==> |id| < 12 || (|id| == 13 && id[8] == '…')
  {
    if |id| == 13 && id[8] == '…' {
      assert id == id[..8] + "…" + id[9..];
    }
  }

  /** JavaScript's `a % 60`: the remainder takes the sign of the dividend. */
  function JsRem60(a: int): (r: int)
    ensures a >= 0 ==> 0 <= r < 60
    ensures a < 0 ==> -60 < r <= 0
    ensures (a - r) % 60 == 0
  {
    if a >= 0 then a % 60 else -((-a) % 60)
  }

  /** `String(s).padStart(2, "0")` */
  function PadStart2(s: string): (r: string)
    ensures |r| >= 2
    ensures |s| >= 2 ==> r == s
  {
    if |s| >= 2 then s else if |s| == 1 then "0" + s else "00"
  }

  /** `secondsToMmSs(sec)`: `Math.floor(sec / 60)`, a colon and the padded
      JavaScript remainder. */
  function SecondsToMmSs(sec: int): string {
    IntToString(sec / 60) + ":" + PadStart2(IntToString(JsRem60(sec)))
  }

  /** For a non-negative count the text is `m:ss`: the minutes in decimal,
      then exactly two digits of seconds below 60, with m * 60 + ss = sec. */
  lemma SecondsToMmSsRoundTrip(sec: int)
    requires sec >= 0
    ensures var r := SecondsToMmSs(sec);
            var m := NatToString(sec / 60);
            && r[..|m|] == m && r[|m|] == ':' && |r| == |m| + 3
            && AllDigits(r[|m| + 1..])
            && ParseDigits(r[|m| + 1..]) < 60
            && ParseDigits(m) * 60 + ParseDigits(r[|m| + 1..]) == sec
  {
    var r := SecondsToMmSs(sec);
    var m := NatToString(sec / 60);
    var ss := PadStart2(NatToString(sec % 60));
    assert r == m + ":" + ss;
    assert r[|m| + 1..] == ss;
    ParseNatToString(sec / 60);
    PaddedSeconds(sec % 60);
  }

  /** Seconds below 60 are padded to exactly two digits that read back. */
  lemma PaddedSeconds(s: nat)
    requires s < 60
    ensures var ss := PadStart2(NatToString(s));
            |ss| == 2 && AllDigits(ss) && ParseDigits(ss) == s
  {
    ParseNatToString(s);
    var ss := PadStart2(NatToString(s));
    if s < 10 {
      assert NatToString(s) == [DigitChar(s)];
      assert ss == ['0', DigitChar(s)];
      assert ss[..1] == "0";
    } else {
      assert NatToString(s) == NatToString(s / 10) + [DigitChar(s % 10)];
      assert NatToString(s / 10) == [DigitChar(s / 10)];
    }
  }

  /** For negative counts the minutes round down and the seconds keep the
      sign: -5 seconds shows as "-1:-5". */
  lemma SecondsToMmSsNegative()
    ensures SecondsToMmSs(-5) == "-1:-5"
  {
    assert IntToString(-1) == "-1" && IntToString(-5) == "-5";
  }

  /** The text is never the placeholder "-": it always has a colon. */
  lemma SecondsToMmSsNotDash(sec: int)
    ensures SecondsToMmSs(sec) != "-"
  {
    assert |SecondsToMmSs(sec)| >= 4;
  }

  /** `Math.round(n / 1000)` for an integer `n`: the nearest integer, a half
      rounding up. */
  function RoundDiv1000(n: int): (r: int)
    ensures 1000 * r - 500 <= n < 1000 * r + 500
  {
    (n + 500) / 1000
  }

  /** `formatDuration(startedAt, endedAt, duration)`: a numeric duration
      wins, counted in milliseconds above 10000 and in seconds otherwise;
      only without one are the timestamps used, when end >= start. */
  function FormatDuration(start: Option<int>, end: Option<int>, duration: Option<int>): string {
    if duration.Some? then
      if duration.value > 10000 then SecondsToMmSs(RoundDiv1000(duration.value)) else SecondsToMmSs(duration.value)
    else if start.Some? && end.Some? && end.value >= start.value then SecondsToMmSs(RoundDiv1000(end.value - start.value))
    else "-"
  }

  /** A numeric duration decides alone; the placeholder "-" appears exactly
      when there is no duration and no ordered pair of valid timestamps. */
  lemma FormatDurationPriority(start: Option<int>, end: Option<int>, duration: Option<int>)
    ensures duration.Some? ==>
              forall s: Option<int>, e: Option<int> :: FormatDuration(s, e, duration) == FormatDuration(start, end, duration)
    ensures FormatDuration(start, end, duration) == "-" <==>
              duration.None? && !(start.Some? && end.Some? && end.value >= start.value)
  {
    if duration.Some? {
      SecondsToMmSsNotDash(if duration.value > 10000 then RoundDiv1000(duration.value) else duration.value);
    } else if start.Some? && end.Some? && end.value >= start.value {
      SecondsToMmSsNotDash(RoundDiv1000(end.value - start.value));
    }
  }

  /** 10000 is read as seconds, 10001 as milliseconds. */
  lemma FormatDurationThreshold()
    ensures FormatDuration(None, None, Some(10000)) == SecondsToMmSs(10000)
    ensures FormatDuration(None, None, Some(10001)) == SecondsToMmSs(10)
  {
  }

  /** `String(v).toLowerCase()` compared with the six words: Some(true) for
      "true", "1", "yes", Some(false) for "false", "0", "no", else None. */
  function Boolish(v: Json): Option<bool> {
    var s := Lower(JsString(v));
    if s == "true" || s == "1" || s == "yes" then Some(true)
    else if s == "false" || s == "0" || s == "no" then Some(false)
    else None
  }

  /** Case does not matter. */
  lemma BoolishUpperCase()
    ensures Boolish(JStr("YES")) == Some(true)
  {
    assert Lower("YES") == "yes";
  }

  lemma BoolishMixedCase()
    ensures Boolish(JStr("No")) == Some(false)
  {
    assert Lower("No") == "no";
  }

  /** Booleans and the numbers 0 and 1 are recognised through `String(v)`. */
  lemma BoolishNonStrings()
    ensures Boolish(JBool(true)) == Some(true) && Boolish(JBool(false)) == Some(false)
    ensures Boolish(JNum(1)) == Some(true) && Boolish(JNum(0)) == Some(false)
  {
    assert JsString(JNum(1)) == "1" && JsString(JNum(0)) == "0";
    assert Lower("true") == "true" && Lower("false") == "false";
    assert Lower("1") == "1" && Lower("0") == "0";
  }

  /** Nothing is trimmed: a padded word is not recognised. */
  lemma BoolishNoTrim()
    ensures Boolish(JStr(" yes")) == None
  {
    assert Lower(" yes") == " yes";
  }
}
