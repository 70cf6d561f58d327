/** BuildQueryLogText: the text a query is logged with, each `@name` token
    replaced by its parameter's value. The scan is over the characters of the
    query text; a token is '@' followed by the longest run of letters, digits
    and '_'. Which characters are letters or digits is .NET's Unicode table,
    so it is a parameter here. */
module QueryLog {
  import opened Base

  /** A parameter value as the logger sees it. The "O" round-trip text of a
      DateTime or DateTimeOffset, and what Convert.ToString makes of any other
      value, are computed by .NET and carried in the value. */
  datatype ParamValue =
    | Null
    | Str(s: string)
    | DateTime(roundTrip: string)
    | DateTimeOffset(roundTrip: string)
    | Other(converted: Option<string>)

  datatype QueryDefinition = QueryDefinition(text: string, parameters: seq<(string, ParamValue)>)

  const Quote: char := '"'
  const At: char := '@'
  const NullText: string := "null"

  /** AppendFormattedValue: strings and dates are quoted (without escaping),
      null and a failed conversion print as null, anything else as converted. */
  function FormatValue(v: ParamValue): (r: string)
    ensures v.Str? ==> r == [Quote] + v.s + [Quote]
    ensures (v.DateTime? || v.DateTimeOffset?) ==> r == [Quote] + v.roundTrip + [Quote]
    ensures v.Null? || v == Other(None) ==> r == NullText
    ensures v.Other? && v.converted.Some? ==> r == v.converted.value
  {
    match v
    case Null => NullText
    case Str(s) => [Quote] + s + [Quote]
    case DateTime(t) => [Quote] + t + [Quote]
    case DateTimeOffset(t) => [Quote] + t + [Quote]
    case Other(c) => c.GetOr(NullText)
  }

  predicate IsTokenChar(c: char, isLetterOrDigit: char -> bool) {
    c == '_' || isLetterOrDigit(c)
  }

  /** Length of the longest run of token characters that starts s. */
  function TokenRun(s: string, isLetterOrDigit: char -> bool): (n: nat)
    ensures n <= |s|
    ensures forall i :: 0 <= i < n ==> IsTokenChar(s[i], isLetterOrDigit)
    ensures n < |s| ==> !IsTokenChar(s[n], isLetterOrDigit)
  {
    if s == [] || !IsTokenChar(s[0], isLetterOrDigit) then 0
    else 1 + TokenRun(s[1..], isLetterOrDigit)
  }

  /** A run of token characters that the next character does not extend is
      the longest one. */
  lemma TokenRunIs(s: string, n: nat, isLetterOrDigit: char -> bool)
    requires n <= |s|
    requires forall i :: 0 <= i < n ==> IsTokenChar(s[i], isLetterOrDigit)
    requires n == |s| || !IsTokenChar(s[n], isLetterOrDigit)
    ensures TokenRun(s, isLetterOrDigit) == n
  {
  }

  /** The dictionary built from the parameter list, entry by entry, so that a
      later entry with the same name overwrites an earlier one. */
  function Lookup(ps: seq<(string, ParamValue)>): map<string, ParamValue>
  {
    if ps == [] then map[]
    else Lookup(ps[..|ps| - 1])[ps[|ps| - 1].0 := ps[|ps| - 1].1]
  }

  /** The log text of `text` under the dictionary m. */
  function Render(text: string, m: map<string, ParamValue>, isLetterOrDigit: char -> bool): string
    decreases |text|
  {
    if text == [] then []
    else if text[0] != At then [text[0]] + Render(text[1..], m, isLetterOrDigit)
    else
      var n := TokenRun(text[1..], isLetterOrDigit);
      if n == 0 then [At] + Render(text[1..], m, isLetterOrDigit)
      else
        var token := text[..n + 1];
        (if token in m then FormatValue(m[token]) else token) + Render(text[n + 1..], m, isLetterOrDigit)
  }

  /** Render unfolded at position i of a text, for a plain character. */
  lemma RenderPlainAt(text: string, i: nat, m: map<string, ParamValue>, isLetterOrDigit: char -> bool)
    requires i < |text| && text[i] != At
    ensures Render(text[i..], m, isLetterOrDigit) == [text[i]] + Render(text[i + 1..], m, isLetterOrDigit)
  {
    assert text[i..][0] == text[i] && text[i..][1..] == text[i + 1..];
  }

  /** Render unfolded at an '@' in position i whose word run ends at j. */
  lemma RenderAtSign(text: string, i: nat, j: nat, m: map<string, ParamValue>, isLetterOrDigit: char -> bool)
    requires i < j <= |text| && text[i] == At
    requires forall k :: i + 1 <= k < j ==> IsTokenChar(text[k], isLetterOrDigit)
    requires j == |text| || !IsTokenChar(text[j], isLetterOrDigit)
    ensures j == i + 1 ==> Render(text[i..], m, isLetterOrDigit) == [At] + Render(text[j..], m, isLetterOrDigit)
    ensures j > i + 1 ==>
      var token := text[i..j];
      Render(text[i..], m, isLetterOrDigit)
      == (if token in m then FormatValue(m[token]) else token) + Render(text[j..], m, isLetterOrDigit)
  {
    var t := text[i..];
    assert t[0] == At && t[1..] == text[i + 1..];
    TokenRunIs(text[i + 1..], j - (i + 1), isLetterOrDigit);
    assert t[..j - i] == text[i..j] && t[j - i..] == text[j..];
  }

  /** The dictionary loop of BuildQueryLogText. */
  method BuildLookup(ps: seq<(string, ParamValue)>) returns (m: map<string, ParamValue>)
    ensures m == Lookup(ps)
  {
    m := map[];
    var p := 0;
    while p < |ps|
      invariant 0 <= p <= |ps|
      invariant m == Lookup(ps[..p])
    {
      assert ps[..p + 1][..p] == ps[..p];
      m := m[ps[p].0 := ps[p].1];
      p := p + 1;
    }
    assert ps[..|ps|] == ps;
  }

  /** The inner scan: from `from`, the end of the run of word characters. */
  method ScanWord(text: string, from: nat, isLetterOrDigit: char -> bool) returns (j: nat)
    requires from <= |text|
    ensures from <= j <= |text|
    ensures forall k :: from <= k < j ==> IsTokenChar(text[k], isLetterOrDigit)
    ensures j == |text| || !IsTokenChar(text[j], isLetterOrDigit)
  {
    j := from;
    while j < |text| && IsTokenChar(text[j], isLetterOrDigit)
      invariant from <= j <= |text|
      invariant forall k :: from <= k < j ==> IsTokenChar(text[k], isLetterOrDigit)
    {
      j := j + 1;
    }
  }

  /** One step of the scan at position i: a plain character, a bare '@', or
      a whole token with its replacement. */
  method NextPiece(text: string, i: nat, m: map<string, ParamValue>, isLetterOrDigit: char -> bool)
    returns (piece: string, next: nat)
    requires i < |text|
    ensures i < next <= |text|
    ensures Render(text[i..], m, isLetterOrDigit) == piece + Render(text[next..], m, isLetterOrDigit)
  {
    if text[i] != At {
      RenderPlainAt(text, i, m, isLetterOrDigit);
      piece, next := [text[i]], i + 1;
    } else {
      var j := ScanWord(text, i + 1, isLetterOrDigit);
      RenderAtSign(text, i, j, m, isLetterOrDigit);
      if j == i + 1 {
        piece, next := [At], i + 1;
      } else {
        var token := text[i..j];
        piece := if token in m then FormatValue(m[token]) else token;
        next := j;
      }
    }
  }

  /** The scan of BuildQueryLogText: walks the text once, copying plain
      characters and replacing tokens found in the dictionary. */
  method Substitute(text: string, m: map<string, ParamValue>, isLetterOrDigit: char -> bool) returns (out: string)
    ensures out == Render(text, m, isLetterOrDigit)
  {
    var len := |text|;
    out := [];
    var i := 0;
    ghost var whole := Render(text, m, isLetterOrDigit);
    assert text[0..] == text;
    while i < len
      invariant 0 <= i <= len
      invariant out + Render(text[i..], m, isLetterOrDigit) == whole
    {
      var piece, next := NextPiece(text, i, m, isLetterOrDigit);
      ghost var rest := Render(text[next..], m, isLetterOrDigit);
      assert (out + piece) + rest == out + (piece + rest);
      out := out + piece;
      i := next;
    }
    assert text[len..] == [];
  }

  /** BuildQueryLogText: the query text itself when there are no parameters,
      otherwise the text with every known token replaced. */
  method BuildQueryLogText(q: QueryDefinition, isLetterOrDigit: char -> bool) returns (out: string)
    ensures |q.parameters| == 0 ==> out == q.text
    ensures |q.parameters| > 0 ==> out == Render(q.text, Lookup(q.parameters), isLetterOrDigit)
  {
    if |q.parameters| == 0 {
      return q.text;
    }
    var m := BuildLookup(q.parameters);
    out := Substitute(q.text, m, isLetterOrDigit);
  }

  /** A text without '@' is logged as it is. */
  lemma {:induction false} PlainTextUnchanged(text: string, m: map<string, ParamValue>, isLetterOrDigit: char -> bool)
    requires At !in text
    ensures Render(text, m, isLetterOrDigit) == text
  {
    if text != [] {
      assert text[0] != At;
      assert At !in text[1..];
      PlainTextUnchanged(text[1..], m, isLetterOrDigit);
    }
  }

  /** Everything before the first '@' is copied verbatim and in order. */
  lemma {:induction false} PlainPrefixCopied(a: string, b: string, m: map<string, ParamValue>, isLetterOrDigit: char -> bool)
    requires At !in a
    ensures Render(a + b, m, isLetterOrDigit) == a + Render(b, m, isLetterOrDigit)
  {
    if a != [] {
      assert (a + b)[0] == a[0] && (a + b)[1..] == a[1..] + b;
      assert At !in a[1..];
      PlainPrefixCopied(a[1..], b, m, isLetterOrDigit);
    } else {
      assert a + b == b;
    }
  }

  /** A token is '@' with a maximal run of word characters; one found in the
      dictionary is replaced by its formatted value, any other is kept. */
  lemma TokenHandled(word: string, rest: string, m: map<string, ParamValue>, isLetterOrDigit: char -> bool)
    requires word != []
    requires forall i :: 0 <= i < |word| ==> IsTokenChar(word[i], isLetterOrDigit)
    requires rest == [] || !IsTokenChar(rest[0], isLetterOrDigit)
    ensures var token := [At] + word;
      Render(token + rest, m, isLetterOrDigit)
      == (if token in m then FormatValue(m[token]) else token) + Render(rest, m, isLetterOrDigit)
  {
    var text := [At] + word + rest;
    assert text[1..] == word + rest;
    TokenRunIs(word + rest, |word|, isLetterOrDigit);
    assert text[..|word| + 1] == [At] + word;
    assert text[|word| + 1..] == rest;
  }

  /** A lone '@' (not followed by a word character) is copied as '@'. */
  lemma BareAtKept(rest: string, m: map<string, ParamValue>, isLetterOrDigit: char -> bool)
    requires rest == [] || !IsTokenChar(rest[0], isLetterOrDigit)
    ensures Render([At] + rest, m, isLetterOrDigit) == [At] + Render(rest, m, isLetterOrDigit)
  {
    assert ([At] + rest)[1..] == rest;
  }

  /** Tokens are matched whole: "@i10" is never read as "@i1" followed by "0". */
  lemma LongestTokenWins(v: ParamValue, isLetterOrDigit: char -> bool)
    requires isLetterOrDigit('i') && isLetterOrDigit('1') && isLetterOrDigit('0')
    ensures Render("@i10", map["@i1" := v], isLetterOrDigit) == "@i10"
  {
    TokenHandled("i10", [], map["@i1" := v], isLetterOrDigit);
    assert "@i10" == [At] + "i10" + [];
    assert "@i10" != "@i1";
  }

  /** name occurs somewhere in text */
  ghost predicate Occurs(name: string, text: string) {
    exists k :: 0 <= k <= |text| && OccursAt(name, text, k)
  }

  predicate OccursAt(name: string, text: string, k: int) {
    0 <= k && k + |name| <= |text| && text[k..k + |name|] == name
  }

  lemma OccursInSuffix(name: string, text: string, d: nat)
    requires d <= |text|
    requires Occurs(name, text[d..])
    ensures Occurs(name, text)
  {
    var k :| 0 <= k <= |text[d..]| && OccursAt(name, text[d..], k);
    assert 0 <= k && k + |name| <= |text| - d && text[d..][k..k + |name|] == name;
    assert text[d + k..d + k + |name|] == text[d..][k..k + |name|];
    assert OccursAt(name, text, d + k);
  }

  /** When no parameter name occurs in the text, the log text is the query text. */
  lemma {:induction false} NoNameOccursUnchanged(text: string, m: map<string, ParamValue>, isLetterOrDigit: char -> bool)
    requires forall name :: name in m ==> !Occurs(name, text)
    ensures Render(text, m, isLetterOrDigit) == text
    decreases |text|
  {
    if text == [] {
    } else if text[0] != At || TokenRun(text[1..], isLetterOrDigit) == 0 {
      forall name | name in m ensures !Occurs(name, text[1..]) {
        if Occurs(name, text[1..]) { OccursInSuffix(name, text, 1); }
      }
      NoNameOccursUnchanged(text[1..], m, isLetterOrDigit);
      assert text == [text[0]] + text[1..];
    } else {
      var n := TokenRun(text[1..], isLetterOrDigit);
      var token := text[..n + 1];
      assert text[0..|token|] == token;
      assert OccursAt(token, text, 0);
      assert token !in m;
      forall name | name in m ensures !Occurs(name, text[n + 1..]) {
        if Occurs(name, text[n + 1..]) { OccursInSuffix(name, text, n + 1); }
      }
      NoNameOccursUnchanged(text[n + 1..], m, isLetterOrDigit);
      assert text == token + text[n + 1..];
    }
  }

  /** Every parameter name ends up in the dictionary... */
  lemma {:induction false} LookupHasEveryName(ps: seq<(string, ParamValue)>, k: nat)
    requires k < |ps|
    ensures ps[k].0 in Lookup(ps)
    decreases |ps|
  {
    if k < |ps| - 1 {
      assert ps[..|ps| - 1][k] == ps[k];
      LookupHasEveryName(ps[..|ps| - 1], k);
    }
  }

  /** ...and when a name repeats, the value of its last occurrence wins. */
  lemma {:induction false} LookupLastWins(ps: seq<(string, ParamValue)>, k: nat)
    requires k < |ps|
    requires forall j :: k < j < |ps| ==> ps[j].0 != ps[k].0
    ensures ps[k].0 in Lookup(ps) && Lookup(ps)[ps[k].0] == ps[k].1
    decreases |ps|
  {
    if k < |ps| - 1 {
      var init := ps[..|ps| - 1];
      assert init[k] == ps[k];
      forall j | k < j < |init| ensures init[j].0 != init[k].0 {
        assert init[j] == ps[j];
      }
      LookupLastWins(init, k);
    }
  }

  /** Nothing but parameter names ends up in the dictionary. */
  lemma {:induction false} LookupOnlyNames(ps: seq<(string, ParamValue)>, name: string)
    requires name in Lookup(ps)
    ensures exists k :: 0 <= k < |ps| && ps[k].0 == name
    decreases |ps|
  {
    if ps[|ps| - 1].0 != name {
      LookupOnlyNames(ps[..|ps| - 1], name);
      var k :| 0 <= k < |ps| - 1 && ps[..|ps| - 1][k].0 == name;
      assert ps[k].0 == name;
    }
  }
}
