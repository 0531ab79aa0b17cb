/** Declared exceptions, written metric{label="value"}, and the parser that reads them back. */
module SkipKey {
  import opened Prelude

  datatype Skip = Skip(metric: string, name: string, value: string)

  /** Word characters are any class of characters that excludes the two delimiters after a word. */
  predicate WordClass(isWord: char -> bool) {
    !isWord('{') && !isWord('=')
  }

  predicate Word(isWord: char -> bool, s: string) {
    s != [] && forall i | 0 <= i < |s| :: isWord(s[i])
  }

  function Print(k: Skip): string {
    k.metric + "{" + k.name + "=\"" + k.value + "\"}"
  }

  /** The length of the longest head all of whose characters satisfy p. */
  function Run(p: char -> bool, s: string): (n: nat)
    ensures n <= |s| && (forall i | 0 <= i < n :: p(s[i])) && (n < |s| ==> !p(s[n]))
  {
    if s == [] || !p(s[0]) then 0 else 1 + Run(p, s[1..])
  }

  predicate NotQuote(c: char) {
    c != '"'
  }

  /** text without quotes, then a quote and a brace, and nothing after */
  function ParseValue(s: string): Option<string> {
    var v := Run(NotQuote, s);
    if s[v..] == "\"}" then Some(s[..v]) else None
  }

  /** a word, an equals sign, a quote, and the value */
  function ParseLabel(isWord: char -> bool, s: string): Option<(string, string)> {
    var l := Run(isWord, s);
    if l == 0 || l + 1 >= |s| || s[l] != '=' || s[l + 1] != '"' then None
    else
      var v := ParseValue(s[l + 2..]);
      if v.Some? then Some((s[..l], v.value)) else None
  }

  /** a word of m characters, a brace, and the label */
  function ParseAt(isWord: char -> bool, key: string, m: nat): Option<Skip>
    requires m <= |key|
  {
    if m == 0 || m == |key| || key[m] != '{' then None
    else
      var rest := ParseLabel(isWord, key[m + 1..]);
      if rest.Some? then Some(Skip(key[..m], rest.value.0, rest.value.1)) else None
  }

  /** fullmatch of (\w+)\{(\w+)="([^"]*)"\} */
  function Parse(isWord: char -> bool, key: string): Option<Skip> {
    ParseAt(isWord, key, Run(isWord, key))
  }

  lemma {:induction false} RunStops(p: char -> bool, head: string, tail: string)
    requires (forall i | 0 <= i < |head| :: p(head[i])) && tail != [] && !p(tail[0])
    ensures Run(p, head + tail) == |head|
  {
    if head == [] {
      assert head + tail == tail;
    } else {
      assert (head + tail)[1..] == head[1..] + tail;
      RunStops(p, head[1..], tail);
    }
  }

  function PrintValue(value: string): string {
    value + "\"}"
  }

  lemma ParseValueIff(s: string, value: string)
    ensures ParseValue(s) == Some(value) <==> s == PrintValue(value) && '"' !in value
  {
    var v := Run(NotQuote, s);
    assert s == s[..v] + s[v..];
    if s == PrintValue(value) && '"' !in value {
      RunStops(NotQuote, value, "\"}");
      assert s[v..] == "\"}" && s[..v] == value;
    }
  }

  function PrintLabel(name: string, value: string): string {
    name + ("=\"" + PrintValue(value))
  }

  /** A head of characters satisfying p, cut off at a first character that does not. */
  lemma Peel(p: char -> bool, head: string, c: char, tail: string)
    requires (forall i | 0 <= i < |head| :: p(head[i])) && !p(c)
    ensures var s := head + ([c] + tail);
            Run(p, s) == |head| < |s| && s[|head|] == c && s[..|head|] == head && s[|head| + 1..] == tail
  {
    RunStops(p, head, [c] + tail);
  }

  /** The printed label, taken apart where its word ends. */
  lemma PrintedLabelParts(isWord: char -> bool, name: string, value: string)
    requires WordClass(isWord) && Word(isWord, name)
    ensures var s := PrintLabel(name, value);
            && Run(isWord, s) == |name| && |name| + 1 < |s| && s[|name|] == '=' && s[|name| + 1] == '"'
            && s[..|name|] == name && s[|name| + 2..] == PrintValue(value)
  {
    RunStops(isWord, name, "=\"" + PrintValue(value));
  }

  lemma PrintedLabelParses(isWord: char -> bool, name: string, value: string)
    requires WordClass(isWord) && Word(isWord, name) && '"' !in value
    ensures ParseLabel(isWord, PrintLabel(name, value)) == Some((name, value))
  {
    PrintedLabelParts(isWord, name, value);
    ParseValueIff(PrintValue(value), value);
  }

  /** What a parsed label says about the text, before the pieces are joined again. */
  lemma ParsedLabelParts(isWord: char -> bool, s: string, name: string, value: string)
    requires ParseLabel(isWord, s) == Some((name, value))
    ensures var l := Run(isWord, s);
            && 0 < l && l + 1 < |s| && s[l] == '=' && s[l + 1] == '"'
            && s[..l] == name && Word(isWord, s[..l]) && ParseValue(s[l + 2..]) == Some(value)
  {
  }

  lemma Glue(s: string, n: nat)
    requires n < |s|
    ensures s == s[..n] + ([s[n]] + s[n + 1..])
  {
  }

  lemma JoinLabel(s: string, l: nat, name: string, value: string)
    requires l + 1 < |s| && s[..l] == name && s[l] == '=' && s[l + 1] == '"' && s[l + 2..] == PrintValue(value)
    ensures s == PrintLabel(name, value)
  {
    Glue(s, l);
    Glue(s[l + 1..], 0);
    assert s[l + 1..] == "\"" + PrintValue(value);
    assert "=" + ("\"" + PrintValue(value)) == "=\"" + PrintValue(value);
  }

  lemma ParsedLabelPrints(isWord: char -> bool, s: string, name: string, value: string)
    requires ParseLabel(isWord, s) == Some((name, value))
    ensures s == PrintLabel(name, value) && Word(isWord, name) && '"' !in value
  {
    var l := Run(isWord, s);
    ParsedLabelParts(isWord, s, name, value);
    ParseValueIff(s[l + 2..], value);
    JoinLabel(s, l, name, value);
  }

  lemma PrintNested(k: Skip)
    ensures Print(k) == k.metric + ("{" + PrintLabel(k.name, k.value))
  {
  }

  lemma PrintedParses(isWord: char -> bool, k: Skip)
    requires WordClass(isWord) && Word(isWord, k.metric) && Word(isWord, k.name) && '"' !in k.value
    ensures Parse(isWord, Print(k)) == Some(k)
  {
    PrintNested(k);
    Peel(isWord, k.metric, '{', PrintLabel(k.name, k.value));
    PrintedLabelParses(isWord, k.name, k.value);
  }

  /** What a parsed exception says about the key, before the pieces are joined again. */
  lemma ParsedParts(isWord: char -> bool, key: string, m: nat, k: Skip)
    requires m <= |key| && ParseAt(isWord, key, m) == Some(k)
    ensures 0 < m < |key| && key[m] == '{' && key[..m] == k.metric
    ensures ParseLabel(isWord, key[m + 1..]) == Some((k.name, k.value))
  {
  }

  lemma ParsedPrints(isWord: char -> bool, key: string, k: Skip)
    requires WordClass(isWord) && Parse(isWord, key) == Some(k)
    ensures key == Print(k) && Word(isWord, k.metric) && Word(isWord, k.name) && '"' !in k.value
  {
    var m := Run(isWord, key);
    ParsedParts(isWord, key, m, k);
    var tail := key[m + 1..];
    ParsedLabelPrints(isWord, tail, k.name, k.value);
    assert tail == PrintLabel(k.name, k.value);
    calc {
      key;
      { Glue(key, m); }
      k.metric + ("{" + tail);
      { PrintNested(k); }
      Print(k);
    }
  }

  /** The parser reads exactly the printed exceptions with word-only names and a quote-free value. */
  lemma ParseIff(isWord: char -> bool, key: string, k: Skip)
    requires WordClass(isWord)
    ensures Parse(isWord, key) == Some(k)
            <==> key == Print(k) && Word(isWord, k.metric) && Word(isWord, k.name) && '"' !in k.value
  {
    if Parse(isWord, key) == Some(k) {
      ParsedPrints(isWord, key, k);
    }
    if key == Print(k) && Word(isWord, k.metric) && Word(isWord, k.name) && '"' !in k.value {
      PrintedParses(isWord, k);
    }
  }
}
