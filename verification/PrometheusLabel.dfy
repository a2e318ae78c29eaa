/** The label escape of the Go agent: three successive replacements against one pass over the
    characters, and its decoder. */
module PrometheusLabel {
  import opened JsonMerge

  /** Every occurrence of the character `c` replaced, left to right. */
  function ReplaceAll(s: string, c: char, text: string): string {
    if s == "" then "" else (if s[0] == c then text else [s[0]]) + ReplaceAll(s[1..], c, text)
  }

  function PrometheusLabel(value: string): string {
    ReplaceAll(ReplaceAll(ReplaceAll(value, '\\', "\\\\"), '\n', "\\n"), '"', "\\\"")
  }

  /** One character of the exposition format's label value. */
  function EscapeChar(c: char): string {
    if c == '\\' then "\\\\" else if c == '\n' then "\\n" else if c == '"' then "\\\"" else [c]
  }

  function Escape(s: string): string {
    if s == "" then "" else EscapeChar(s[0]) + Escape(s[1..])
  }

  lemma {:induction false} ReplaceConcat(s: string, t: string, c: char, text: string)
    ensures ReplaceAll(s + t, c, text) == ReplaceAll(s, c, text) + ReplaceAll(t, c, text)
    decreases |s|
  {
    if s == "" {
      assert s + t == t;
    } else {
      assert (s + t)[1..] == s[1..] + t;
      ReplaceConcat(s[1..], t, c, text);
    }
  }

  lemma EscapeCharByPasses(c: char)
    ensures PrometheusLabel([c]) == EscapeChar(c)
  {
    ReplaceOne(c, '\\', "\\\\");
    if c == '\\' {
      ReplaceNone("\\\\", '\n', "\\n");
      ReplaceNone("\\\\", '"', "\\\"");
    } else {
      ReplaceOne(c, '\n', "\\n");
      if c == '\n' {
        ReplaceNone("\\n", '"', "\\\"");
      } else {
        ReplaceOne(c, '"', "\\\"");
      }
    }
  }

  lemma ReplaceOne(x: char, c: char, text: string)
    ensures ReplaceAll([x], c, text) == if x == c then text else [x]
  {
    assert [x][1..] == "";
  }

  lemma {:induction false} ReplaceNone(s: string, c: char, text: string)
    requires c !in s
    ensures ReplaceAll(s, c, text) == s
  {
    if s != "" {
      ReplaceNone(s[1..], c, text);
      assert [s[0]] + s[1..] == s;
    }
  }

  lemma PassesConcat(s: string, t: string)
    ensures PrometheusLabel(s + t) == PrometheusLabel(s) + PrometheusLabel(t)
  {
    ReplaceConcat(s, t, '\\', "\\\\");
    var a, b := ReplaceAll(s, '\\', "\\\\"), ReplaceAll(t, '\\', "\\\\");
    ReplaceConcat(a, b, '\n', "\\n");
    ReplaceConcat(ReplaceAll(a, '\n', "\\n"), ReplaceAll(b, '\n', "\\n"), '"', "\\\"");
  }

  /** The three passes are one escape per character, although each pass also runs over what the
      passes before it inserted. */
  lemma {:induction false} PassesAreOneEscape(value: string)
    ensures PrometheusLabel(value) == Escape(value)
  {
    if value != "" {
      assert value == [value[0]] + value[1..];
      PassesConcat([value[0]], value[1..]);
      EscapeCharByPasses(value[0]);
      PassesAreOneEscape(value[1..]);
    }
  }

  /** Read a label value back; `None` where the text is none. */
  function Decode(s: string): Option<string>
    decreases |s|
  {
    if s == "" then Some("")
    else if s[0] == '\\' then
      if |s| < 2 || (s[1] != '\\' && s[1] != 'n' && s[1] != '"') then None
      else
        var rest := Decode(s[2..]);
        if rest.None? then None else Some([if s[1] == 'n' then '\n' else s[1]] + rest.value)
    else if s[0] == '"' || s[0] == '\n' then None
    else
      var rest := Decode(s[1..]);
      if rest.None? then None else Some([s[0]] + rest.value)
  }

  lemma {:induction false} DecodeEscape(value: string)
    ensures Decode(Escape(value)) == Some(value)
  {
    if value != "" {
      var c, rest := value[0], Escape(value[1..]);
      DecodeEscape(value[1..]);
      var whole := EscapeChar(c) + rest;
      if c == '\\' || c == '\n' || c == '"' {
        assert whole[0] == '\\' && whole[2..] == rest;
      } else {
        assert whole[0] == c && whole[1..] == rest;
      }
      assert [c] + value[1..] == value;
    }
  }

  /** Position `i` is taken by the backslash before it, reading from the left. */
  predicate Escaped(s: string, i: nat)
    requires i < |s|
  {
    i > 0 && s[i - 1] == '\\' && !Escaped(s, i - 1)
  }

  lemma {:induction false} EscapedShift(s: string, k: nat, i: nat)
    requires k <= i < |s| && k <= 2 && (k == 1 ==> s[0] != '\\') && (k == 2 ==> s[0] == '\\')
    ensures Escaped(s[k..], i - k) <==> Escaped(s, i)
    decreases i
  {
    if i > k {
      EscapedShift(s, k, i - 1);
    } else if k == 2 {
      assert Escaped(s, 1);
    }
  }

  lemma {:induction false} DecodableIsClean(s: string, i: nat)
    requires Decode(s).Some? && i < |s|
    ensures s[i] != '\n' && (s[i] == '"' ==> Escaped(s, i))
    decreases |s|
  {
    var k := if s[0] == '\\' then 2 else 1;
    if i >= k {
      DecodableIsClean(s[k..], i - k);
      EscapedShift(s, k, i);
    }
  }

  /** For every agent name: the exported label value reads back as that name, so two names never
      share one; and it holds no raw newline and no quote that a backslash does not escape. */
  lemma LabelRoundTrip(value: string)
    ensures Decode(PrometheusLabel(value)) == Some(value)
    ensures forall i | 0 <= i < |PrometheusLabel(value)| ::
              PrometheusLabel(value)[i] != '\n'
                && (PrometheusLabel(value)[i] == '"' ==> Escaped(PrometheusLabel(value), i))
  {
    PassesAreOneEscape(value);
    DecodeEscape(value);
    forall i | 0 <= i < |PrometheusLabel(value)|
      ensures PrometheusLabel(value)[i] != '\n'
              && (PrometheusLabel(value)[i] == '"' ==> Escaped(PrometheusLabel(value), i))
    {
      DecodableIsClean(PrometheusLabel(value), i);
    }
  }

  lemma LabelInjective(a: string, b: string)
    requires PrometheusLabel(a) == PrometheusLabel(b)
    ensures a == b
  {
    LabelRoundTrip(a);
    LabelRoundTrip(b);
  }
}
