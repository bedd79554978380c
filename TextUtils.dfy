/** The string helper the Blueprint tree code uses to unquote literals. */
module TextUtils {
  import opened Text

  /** Kotlin `removeSurrounding(delimiter)`: one delimiter off each end, only when both ends carry it. */
  function RemoveSurrounding(s: string, delimiter: string): (r: string)
    ensures |s| >= 2 * |delimiter| && StartsWith(s, delimiter) && EndsWith(s, delimiter) ==>
      s == delimiter + r + delimiter
    ensures !(|s| >= 2 * |delimiter| && StartsWith(s, delimiter) && EndsWith(s, delimiter)) ==> r == s
  {
    if |s| >= 2 * |delimiter| && StartsWith(s, delimiter) && EndsWith(s, delimiter) then
      var r := s[|delimiter|..|s| - |delimiter|];
      assert s == s[..|delimiter|] + r + s[|s| - |delimiter|..];
      r
    else s
  }

  /**
   * `trimQuotes`: a string that starts with a single quote loses one pair
   * of surrounding single quotes, any other string one pair of double
   * quotes. The first character is read unconditionally, so the string
   * must not be empty.
   */
  function TrimQuotes(s: string): (r: string)
    requires |s| > 0
  {
    if s[0] == '\'' then RemoveSurrounding(s, "'") else RemoveSurrounding(s, "\"")
  }

  /** Exactly one surrounding pair of quotes comes off, of the kind the string starts with. */
  lemma TrimQuotesIff(s: string)
    requires |s| > 0
    ensures var q := if s[0] == '\'' then '\'' else '"';
      if |s| >= 2 && s[0] == q && s[|s| - 1] == q then TrimQuotes(s) == s[1..|s| - 1]
      else TrimQuotes(s) == s
  {
    var q := if s[0] == '\'' then '\'' else '"';
    var d := [q];
    assert StartsWith(s, d) <==> s[0] == q;
    assert EndsWith(s, d) <==> s[|s| - 1] == q by {
      assert s[|s| - 1..] == [s[|s| - 1]];
    }
    if |s| >= 2 && s[0] == q && s[|s| - 1] == q {
      assert TrimQuotes(s) == RemoveSurrounding(s, d);
      assert s == d + TrimQuotes(s) + d;
      assert TrimQuotes(s) == s[1..|s| - 1];
    }
  }

  /** Quoting a string and trimming the quotes gives it back. */
  lemma TrimQuotesOfQuoted(body: string)
    ensures TrimQuotes("\"" + body + "\"") == body
    ensures TrimQuotes("'" + body + "'") == body
  {
    var dq := "\"" + body + "\"";
    var sq := "'" + body + "'";
    TrimQuotesIff(dq);
    TrimQuotesIff(sq);
    assert dq[1..|dq| - 1] == body;
    assert sq[1..|sq| - 1] == body;
  }

  /** A quote at one end only is kept: `"abc` is unchanged. */
  lemma UnbalancedQuoteKept()
    ensures TrimQuotes("\"abc") == "\"abc"
    ensures TrimQuotes("'") == "'"
  {
    TrimQuotesIff("\"abc");
    TrimQuotesIff("'");
  }

  /** Only one layer comes off, so trimming twice differs from trimming once. */
  lemma NotIdempotent()
    ensures TrimQuotes("\"\"a\"\"") == "\"a\""
    ensures TrimQuotes(TrimQuotes("\"\"a\"\"")) == "a"
  {
    TrimQuotesIff("\"\"a\"\"");
    TrimQuotesIff("\"a\"");
    assert "\"\"a\"\""[1..4] == "\"a\"";
    assert "\"a\""[1..2] == "a";
  }
}
