/** `escapeHtml` of src/main.js, as it behaves: the pattern `/[&<>"]+/g` matches
    whole runs of special characters, and the replacement table is keyed by single
    characters, so a run of two or more looks up a missing key and is replaced by
    the text "undefined". `EscapeEach` is the per-character escaping evidently
    intended, with its inverse `Unescape`. */
module Html {

  predicate IsSpecial(c: char) {
    c == '&' || c == '<' || c == '>' || c == '"'
  }

  /** No character that can open a tag or close an attribute value. */
  predicate NoMarkup(s: string) {
    forall k :: 0 <= k < |s| ==> s[k] != '<' && s[k] != '>' && s[k] != '"'
  }

  predicate NoSpecials(s: string) {
    forall k :: 0 <= k < |s| ==> !IsSpecial(s[k])
  }

  /** No two special characters stand side by side. */
  predicate NoAdjacentSpecials(s: string) {
    forall k :: 0 <= k < |s| - 1 ==> !(IsSpecial(s[k]) && IsSpecial(s[k + 1]))
  }

  /** The table entry for one special character. */
  function Entity(c: char): (r: string)
    requires IsSpecial(c)
    ensures |r| >= 4 && r[0] == '&' && r[|r| - 1] == ';' && NoMarkup(r)
  {
    if c == '&' then "&amp;" else if c == '<' then "&lt;" else if c == '>' then "&gt;" else "&quot;"
  }

  /** The one-character strings of the special characters: the keys of the table. */
  const Keys: set<string> := {"&", "<", ">", "\""}

  /** The replacer's lookup table, keyed by one-character strings. */
  const Table: map<string, string> := map key | key in Keys :: Entity(key[0])

  /** Every key of the table is one special character. */
  lemma TableKeys()
    ensures forall key :: key in Table ==> |key| == 1 && IsSpecial(key[0])
    ensures forall c :: IsSpecial(c) ==> [c] in Table && Table[[c]] == Entity(c)
  {
    assert forall c :: IsSpecial(c) ==> [c] in Keys;
  }

  /** Length of the run of special characters at the front of s: what one greedy
      match of `[&<>"]+` covers when it starts there. */
  function SpecialRun(s: string): (n: nat)
    ensures n <= |s|
    ensures forall k :: 0 <= k < n ==> IsSpecial(s[k])
    ensures n < |s| ==> !IsSpecial(s[n])
  {
    if |s| > 0 && IsSpecial(s[0]) then 1 + SpecialRun(s[1..]) else 0
  }

  /** The replacer: the whole matched run is looked up in the table, and a missing
      key yields `undefined`, which the replacement turns into the text "undefined". */
  function Replacement(run: string): (r: string)
    requires |run| >= 1
    requires forall k :: 0 <= k < |run| ==> IsSpecial(run[k])
    ensures NoMarkup(r)
    ensures |run| == 1 ==> r == Entity(run[0])
    ensures |run| >= 2 ==> r == "undefined"
  {
    TableKeys();
    assert |run| == 1 ==> run == [run[0]];
    if run in Table then Table[run] else "undefined"
  }

  /** `escapeHtml(str)` for a string argument. */
  function EscapeHtml(s: string): (r: string)
    ensures NoMarkup(r)
    decreases |s|
  {
    if |s| == 0 then ""
    else if !IsSpecial(s[0]) then [s[0]] + EscapeHtml(s[1..])
    else
      var n := SpecialRun(s);
      Replacement(s[..n]) + EscapeHtml(s[n..])
  }

  /** Text without special characters comes out unchanged. */
  lemma {:induction false} EscapePlain(s: string)
    requires NoSpecials(s)
    ensures EscapeHtml(s) == s
    decreases |s|
  {
    if |s| > 0 {
      EscapePlain(s[1..]);
    }
  }

  /** A lone special character becomes its entity. */
  lemma EscapeLone(c: char)
    requires IsSpecial(c)
    ensures EscapeHtml([c]) == Entity(c)
  {
  }

  /** A string made only of two or more special characters is one run, replaced by "undefined". */
  lemma EscapeRun(s: string)
    requires |s| >= 2
    requires forall k :: 0 <= k < |s| ==> IsSpecial(s[k])
    ensures EscapeHtml(s) == "undefined"
  {
    EscapeAtRun(s);
    assert SpecialRun(s) == |s|;
    assert s[..|s|] == s && s[|s|..] == "";
  }

  /** The run at the front of a + b is the run at the front of a whenever that run
      ends inside a or b does not continue it. */
  lemma {:induction false} SpecialRunConcat(a: string, b: string)
    requires SpecialRun(a) < |a| || |b| == 0 || !IsSpecial(b[0])
    ensures SpecialRun(a + b) == SpecialRun(a)
    decreases |a|
  {
    if |a| == 0 {
      assert a + b == b;
    } else if IsSpecial(a[0]) {
      assert (a + b)[0] == a[0];
      assert (a + b)[1..] == a[1..] + b;
      SpecialRunConcat(a[1..], b);
    } else {
      assert (a + b)[0] == a[0];
    }
  }

  /** Escaping distributes over concatenation wherever the seam does not fall
      inside a run of special characters. */
  lemma {:induction false} EscapeConcat(a: string, b: string)
    requires |a| == 0 || |b| == 0 || !(IsSpecial(a[|a| - 1]) && IsSpecial(b[0]))
    ensures EscapeHtml(a + b) == EscapeHtml(a) + EscapeHtml(b)
    decreases |a|
  {
    if |a| == 0 {
      assert a + b == b;
    } else if !IsSpecial(a[0]) {
      EscapeConcatPlain(a, b);
    } else {
      EscapeConcatRun(a, b);
    }
  }

  /** EscapeConcat when a starts with an ordinary character. */
  lemma {:induction false} EscapeConcatPlain(a: string, b: string)
    requires |a| > 0 && !IsSpecial(a[0])
    requires |b| == 0 || !(IsSpecial(a[|a| - 1]) && IsSpecial(b[0]))
    ensures EscapeHtml(a + b) == EscapeHtml(a) + EscapeHtml(b)
    decreases |a|, 0
  {
    var ab := a + b;
    assert ab[0] == a[0];
    assert ab[1..] == a[1..] + b;
    EscapeConcat(a[1..], b);
    calc {
      EscapeHtml(ab);
      [a[0]] + EscapeHtml(a[1..] + b);
      [a[0]] + (EscapeHtml(a[1..]) + EscapeHtml(b));
      ([a[0]] + EscapeHtml(a[1..])) + EscapeHtml(b);
    }
  }

  /** EscapeConcat when a starts with a run of special characters. */
  lemma {:induction false} EscapeConcatRun(a: string, b: string)
    requires |a| > 0 && IsSpecial(a[0])
    requires |b| == 0 || !(IsSpecial(a[|a| - 1]) && IsSpecial(b[0]))
    ensures EscapeHtml(a + b) == EscapeHtml(a) + EscapeHtml(b)
    decreases |a|, 0
  {
    var n := SpecialRun(a);
    assert |a[n..]| == 0 || |b| == 0 || !(IsSpecial(a[n..][|a[n..]| - 1]) && IsSpecial(b[0]));
    var rep := EscapeFirstRun(a, b);
    EscapeConcat(a[n..], b);
    ConcatAssoc(rep, EscapeHtml(a[n..]), EscapeHtml(b));
  }

  /** Concatenation is associative. Stated as a lemma so that EscapeConcatRun gets
      the regrouping as one instantiation instead of by sequence extensionality,
      which keeps that proof cheap. */
  lemma ConcatAssoc(x: string, y: string, z: string)
    ensures x + (y + z) == (x + y) + z
  {
  }

  /** Escaping a + b and escaping a both start with the replacement of the first run
      of a, when b does not continue that run. */
  lemma EscapeFirstRun(a: string, b: string) returns (rep: string)
    requires |a| > 0 && IsSpecial(a[0])
    requires |b| == 0 || !(IsSpecial(a[|a| - 1]) && IsSpecial(b[0]))
    ensures 1 <= SpecialRun(a) <= |a|
    ensures EscapeHtml(a + b) == rep + EscapeHtml(a[SpecialRun(a)..] + b)
    ensures EscapeHtml(a) == rep + EscapeHtml(a[SpecialRun(a)..])
  {
    var n := FirstRunOfConcat(a, b);
    rep := Replacement(a[..n]);
    EscapeAtRun(a + b);
    EscapeAtRun(a);
  }

  /** The run at the front of a + b, when b does not continue the one of a, and the
      two pieces it splits a + b into. */
  lemma FirstRunOfConcat(a: string, b: string) returns (n: nat)
    requires |a| > 0 && IsSpecial(a[0])
    requires |b| == 0 || !(IsSpecial(a[|a| - 1]) && IsSpecial(b[0]))
    ensures n == SpecialRun(a) == SpecialRun(a + b) && 1 <= n <= |a|
    ensures (a + b)[..n] == a[..n] && (a + b)[n..] == a[n..] + b
  {
    n := SpecialRun(a);
    if n == |a| {
      assert IsSpecial(a[|a| - 1]);
    }
    SpecialRunConcat(a, b);
  }

  /** Unfolds EscapeHtml once at a run of special characters. */
  lemma EscapeAtRun(s: string)
    requires |s| > 0 && IsSpecial(s[0])
    ensures SpecialRun(s) >= 1
    ensures EscapeHtml(s) == Replacement(s[..SpecialRun(s)]) + EscapeHtml(s[SpecialRun(s)..])
  {
  }

  /** The intended replacement of one character. */
  function EscapeChar(c: char): (r: string)
    ensures |r| >= 1 && NoMarkup(r)
    ensures !IsSpecial(c) <==> r == [c]
  {
    if IsSpecial(c) then Entity(c) else [c]
  }

  /** The escaping evidently intended: every special character by its entity. */
  function EscapeEach(s: string): (r: string)
    ensures NoMarkup(r)
    ensures |r| >= |s|
    decreases |s|
  {
    if |s| == 0 then "" else EscapeChar(s[0]) + EscapeEach(s[1..])
  }

  /** Decodes the four entities and copies everything else. */
  function Unescape(s: string): (r: string)
    decreases |s|
  {
    if |s| == 0 then ""
    else if |s| >= 5 && s[..5] == "&amp;" then "&" + Unescape(s[5..])
    else if |s| >= 4 && s[..4] == "&lt;" then "<" + Unescape(s[4..])
    else if |s| >= 4 && s[..4] == "&gt;" then ">" + Unescape(s[4..])
    else if |s| >= 6 && s[..6] == "&quot;" then "\"" + Unescape(s[6..])
    else [s[0]] + Unescape(s[1..])
  }

  /** Decoding reads back one escaped character and continues after it. */
  lemma UnescapeFront(c: char, rest: string)
    ensures Unescape(EscapeChar(c) + rest) == [c] + Unescape(rest)
  {
    if c == '&' {
      UnescapeLeading("&amp;", rest);
    } else if c == '<' {
      UnescapeLeading("&lt;", rest);
    } else if c == '>' {
      UnescapeLeading("&gt;", rest);
    } else if c == '"' {
      UnescapeLeading("&quot;", rest);
    } else {
      var t := [c] + rest;
      assert t[0] == c;
      assert t[1..] == rest;
    }
  }

  /** The entity e at the front of e + rest is decoded, and decoding resumes after it. */
  lemma UnescapeLeading(e: string, rest: string)
    requires e == "&amp;" || e == "&lt;" || e == "&gt;" || e == "&quot;"
    ensures Unescape(e + rest)
            == (if e == "&amp;" then "&" else if e == "&lt;" then "<"
                else if e == "&gt;" then ">" else "\"") + Unescape(rest)
  {
    var t := e + rest;
    assert t[..|e|] == e && t[|e|..] == rest;
    assert t[1] == e[1];
    assert |t| >= 5 ==> t[..5][1] == e[1];
    assert |t| >= 4 ==> t[..4][1] == e[1];
  }

  /** The intended escaping loses nothing: decoding recovers the input. */
  lemma {:induction false} UnescapeEscapeEach(s: string)
    ensures Unescape(EscapeEach(s)) == s
    decreases |s|
  {
    if |s| > 0 {
      UnescapeFront(s[0], EscapeEach(s[1..]));
      UnescapeEscapeEach(s[1..]);
    }
  }

  /** As written, escaping agrees with the intended escaping on every string in
      which no two special characters are adjacent. */
  lemma {:induction false} EscapeMatchesIntended(s: string)
    requires NoAdjacentSpecials(s)
    ensures EscapeHtml(s) == EscapeEach(s)
    decreases |s|
  {
    if |s| > 0 {
      assert s == [s[0]] + s[1..];
      EscapeConcat([s[0]], s[1..]);
      if IsSpecial(s[0]) {
        EscapeLone(s[0]);
      } else {
        assert NoSpecials([s[0]]);
        EscapePlain([s[0]]);
      }
      EscapeMatchesIntended(s[1..]);
    }
  }

  /** Two adjacent special characters are not escaped but replaced by "undefined",
      and two different inputs then collapse to the same output. */
  lemma AdjacentSpecialsBecomeUndefined()
    ensures EscapeHtml("&&") == "undefined"
    ensures EscapeHtml("<>") == "undefined"
    ensures EscapeEach("&&") == "&amp;&amp;"
  {
  }
}
