/**
 * The chat coordinator's text handling (resources/chat_coordinator.py):
 * the `KEY: value` parser for the language model's structured answer, the
 * unit-aware frequency extractor, and the rule that downgrades a tuning
 * request when no frequency can be found.
 */
module ChatCoordinator {
  import opened Wrappers
  import Framing

  // ---------------------------------------------------------------------
  // Python string primitives
  // ---------------------------------------------------------------------

  /** `str.isspace()` for one character; the regex class `\s` is the same set. */
  predicate IsSpace(c: char)
  {
    || c == ' ' || '\t' <= c <= '\r' || '\U{1C}' <= c <= '\U{1F}'
    || c == '\U{85}' || c == '\U{A0}' || c == '\U{1680}' || '\U{2000}' <= c <= '\U{200A}'
    || c == '\U{2028}' || c == '\U{2029}' || c == '\U{202F}' || c == '\U{205F}' || c == '\U{3000}'
  }

  /** `s.lstrip()`: the suffix left after the leading whitespace. */
  function StripLeft(s: string): (r: string)
    ensures |r| <= |s| && r == s[|s| - |r|..]
    ensures r == [] || !IsSpace(r[0])
    ensures forall i :: 0 <= i < |s| - |r| ==> IsSpace(s[i])
  {
    if |s| > 0 && IsSpace(s[0]) then StripLeft(s[1..]) else s
  }

  /** `s.rstrip()`: the prefix left before the trailing whitespace. */
  function StripRight(s: string): (r: string)
    ensures |r| <= |s| && r == s[..|r|]
    ensures r == [] || !IsSpace(r[|r| - 1])
    ensures forall i :: |r| <= i < |s| ==> IsSpace(s[i])
  {
    if |s| > 0 && IsSpace(s[|s| - 1]) then StripRight(s[..|s| - 1]) else s
  }

  /** `s.strip()`. */
  function Strip(s: string): string
  {
    StripRight(StripLeft(s))
  }

  function LowerChar(c: char): char
  {
    if 'A' <= c <= 'Z' then (c as int - 'A' as int + 'a' as int) as char else c
  }

  /** `s.lower()` on ASCII letters. */
  function Lower(s: string): (r: string)
    ensures |r| == |s|
  {
    seq(|s|, i requires 0 <= i < |s| => LowerChar(s[i]))
  }

  /** `s.replace(' ', '_')`. */
  function SpacesToUnderscores(s: string): (r: string)
    ensures |r| == |s|
  {
    seq(|s|, i requires 0 <= i < |s| => if s[i] == ' ' then '_' else s[i])
  }

  /** `s.split(sep)`. */
  function SplitOn(s: string, sep: char): (parts: seq<string>)
    ensures |parts| >= 1
    ensures forall p :: p in parts ==> sep !in p
  {
    if s == [] then [[]]
    else
      var rest := SplitOn(s[1..], sep);
      if s[0] == sep then [[]] + rest else [[s[0]] + rest[0]] + rest[1..]
  }

  /** `sep.join(parts)`. */
  function JoinWith(parts: seq<string>, sep: char): string
    requires |parts| >= 1
  {
    if |parts| == 1 then parts[0] else parts[0] + [sep] + JoinWith(parts[1..], sep)
  }

  /** Splitting and joining back on the same separator give the text again. */
  lemma {:induction false} SplitThenJoin(s: string, sep: char)
    ensures JoinWith(SplitOn(s, sep), sep) == s
  {
    if s != [] {
      var rest := SplitOn(s[1..], sep);
      SplitThenJoin(s[1..], sep);
      if s[0] == sep {
        assert SplitOn(s, sep)[1..] == rest;
      } else if |rest| > 1 {
        assert SplitOn(s, sep)[1..] == rest[1..];
      }
    }
  }

  /** `line.split(sep, 1)` for a line that holds `sep`: the text before its first occurrence and the rest. */
  function SplitFirst(line: string, sep: char): (r: (string, string))
    requires sep in line
    ensures line == r.0 + [sep] + r.1
    ensures sep !in r.0
  {
    if line[0] == sep then ([], line[1..])
    else
      var (before, after) := SplitFirst(line[1..], sep);
      ([line[0]] + before, after)
  }

  /** The split is at the first separator, so anything after it, further separators included, is kept whole. */
  lemma {:induction false} SplitFirstUnique(line: string, sep: char, before: string, after: string)
    requires line == before + [sep] + after && sep !in before
    ensures sep in line && SplitFirst(line, sep) == (before, after)
  {
    assert line[|before|] == sep;
    if before != [] {
      assert line[0] == before[0] != sep;
      assert line[1..] == before[1..] + [sep] + after;
      SplitFirstUnique(line[1..], sep, before[1..], after);
      assert [line[0]] + before[1..] == before;
    }
  }

  // ---------------------------------------------------------------------
  // _parse_llm_response
  // ---------------------------------------------------------------------

  /** One outer bracket pair is dropped (`value[1:-1]`); a value that is not bracketed is kept. */
  function Unbracket(v: string): (r: string)
    ensures |v| >= 2 && v[0] == '[' && v[|v| - 1] == ']' ==> r == v[1..|v| - 1]
    ensures !(|v| >= 2 && v[0] == '[' && v[|v| - 1] == ']') ==> r == v
  {
    if |v| >= 2 && v[0] == '[' && v[|v| - 1] == ']' then v[1..|v| - 1] else v
  }

  function NormalizeKey(k: string): string
  {
    SpacesToUnderscores(Lower(Strip(k)))
  }

  function NormalizeValue(v: string): string
  {
    Unbracket(Lower(Strip(v)))
  }

  /** What one line contributes: nothing without a ':', else the normalised key and value. */
  function ParseLine(line: string): Option<(string, string)>
  {
    if ':' !in line then None
    else
      var (key, value) := SplitFirst(line, ':');
      Some((NormalizeKey(key), NormalizeValue(value)))
  }

  /** The dictionary built from a sequence of optional entries, later entries overwriting earlier ones. */
  function Collect<K, V>(entries: seq<Option<(K, V)>>): map<K, V>
  {
    if entries == [] then map[]
    else
      var earlier := Collect(entries[..|entries| - 1]);
      match entries[|entries| - 1]
      case None => earlier
      case Some((key, value)) => earlier[key := value]
  }

  /** What each line contributes. */
  function Entries(lines: seq<string>): (r: seq<Option<(string, string)>>)
    ensures |r| == |lines|
  {
    seq(|lines|, i requires 0 <= i < |lines| => ParseLine(lines[i]))
  }

  /** The dictionary _parse_llm_response builds from `lines`. */
  function ParsedLines(lines: seq<string>): map<string, string>
  {
    Collect(Entries(lines))
  }

  function ResponseLines(response: string): seq<string>
  {
    SplitOn(Strip(response), '\n')
  }

  /** _parse_llm_response. */
  method ParseLlmResponse(response: string) returns (result: map<string, string>)
    ensures result == ParsedLines(ResponseLines(response))
  {
    result := ParseLines(ResponseLines(response));
  }

  /** The loop of _parse_llm_response over the lines of the stripped answer. */
  method ParseLines(lines: seq<string>) returns (result: map<string, string>)
    ensures result == ParsedLines(lines)
  {
    result := map[];
    ghost var done: seq<string> := [];
    var i := 0;
    while i < |lines|
      invariant 0 <= i <= |lines| && done == lines[..i]
      invariant result == ParsedLines(done)
    {
      var line := lines[i];
      ParsedLinesSnoc(done, line);
      var entry := LineEntry(line);
      if entry.Some? {
        result := result[entry.value.0 := entry.value.1];
      }
      done := done + [line];
      i := i + 1;
    }
    assert done == lines;
  }

  /** The body of that loop for one line: the key and the value it stores, if any. */
  method LineEntry(line: string) returns (entry: Option<(string, string)>)
    ensures entry == ParseLine(line)
  {
    if ':' !in line {
      return None;
    }
    var parts := SplitFirst(line, ':');
    var key := SpacesToUnderscores(Lower(Strip(parts.0)));
    var value := Lower(Strip(parts.1));
    ghost var lowered := value;
    if |value| >= 2 && value[0] == '[' && value[|value| - 1] == ']' {
      value := value[1..|value| - 1];
    }
    assert value == Unbracket(lowered);
    entry := Some((key, value));
  }

  /** One more line updates the dictionary by that line alone. */
  lemma ParsedLinesSnoc(lines: seq<string>, line: string)
    ensures ParseLine(line).None? ==> ParsedLines(lines + [line]) == ParsedLines(lines)
    ensures ParseLine(line).Some? ==>
              ParsedLines(lines + [line]) == ParsedLines(lines)[ParseLine(line).value.0 := ParseLine(line).value.1]
  {
    var entries := Entries(lines);
    forall k | 0 <= k < |lines|
      ensures Entries(lines + [line])[k] == entries[k]
    {
      assert (lines + [line])[k] == lines[k];
    }
    assert Entries(lines + [line]) == entries + [ParseLine(line)];
    CollectSnoc(entries, ParseLine(line));
  }

  /** One more entry updates the dictionary by that entry alone. */
  lemma CollectSnoc<K, V>(entries: seq<Option<(K, V)>>, e: Option<(K, V)>)
    ensures e.None? ==> Collect(entries + [e]) == Collect(entries)
    ensures e.Some? ==> Collect(entries + [e]) == Collect(entries)[e.value.0 := e.value.1]
  {
    assert (entries + [e])[..|entries|] == entries;
  }

  /** A key is present exactly when some entry carries it. */
  lemma {:induction false} CollectKeys<K, V>(entries: seq<Option<(K, V)>>, key: K)
    ensures key in Collect(entries) <==> exists j :: 0 <= j < |entries| && entries[j].Some? && entries[j].value.0 == key
  {
    if entries != [] {
      var n := |entries| - 1;
      var earlier, last := entries[..n], entries[n];
      assert entries == earlier + [last];
      CollectSnoc(earlier, last);
      CollectKeys(earlier, key);
      if key in Collect(earlier) {
        var j :| 0 <= j < n && earlier[j].Some? && earlier[j].value.0 == key;
        assert entries[j] == earlier[j];
      }
      if exists j :: 0 <= j < |entries| && entries[j].Some? && entries[j].value.0 == key {
        var j :| 0 <= j < |entries| && entries[j].Some? && entries[j].value.0 == key;
        if j < n {
          assert entries[j] == earlier[j];
        }
      }
    }
  }

  /** The last entry that carries `key`, whose value the dictionary keeps. */
  lemma {:induction false} LastEntryFor<K, V>(entries: seq<Option<(K, V)>>, key: K) returns (j: nat)
    requires key in Collect(entries)
    ensures j < |entries| && entries[j] == Some((key, Collect(entries)[key]))
    ensures forall k :: j < k < |entries| ==> entries[k].None? || entries[k].value.0 != key
  {
    assert entries != [];
    var n := |entries| - 1;
    var earlier, last := entries[..n], entries[n];
    assert entries == earlier + [last];
    CollectSnoc(earlier, last);
    if last.Some? && last.value.0 == key {
      j := n;
    } else {
      j := LastEntryFor(earlier, key);
      assert entries[j] == earlier[j];
      forall k | j < k < |entries|
        ensures entries[k].None? || entries[k].value.0 != key
      {
        if k < n {
          assert entries[k] == earlier[k];
        }
      }
    }
  }

  /**
   * For the answer's lines: a key is present exactly when some line with a
   * ':' normalises to it, and it keeps the value from the last such line.
   */
  lemma ParsedLinesMeaning(lines: seq<string>, key: string)
    ensures key in ParsedLines(lines) <==>
              exists j :: 0 <= j < |lines| && ParseLine(lines[j]).Some? && ParseLine(lines[j]).value.0 == key
    ensures key in ParsedLines(lines) ==>
              exists j :: 0 <= j < |lines| && ParseLine(lines[j]) == Some((key, ParsedLines(lines)[key]))
                && forall k :: j < k < |lines| ==> ParseLine(lines[k]).None? || ParseLine(lines[k]).value.0 != key
  {
    var entries := Entries(lines);
    CollectKeys(entries, key);
    if exists j :: 0 <= j < |lines| && ParseLine(lines[j]).Some? && ParseLine(lines[j]).value.0 == key {
      var j :| 0 <= j < |lines| && ParseLine(lines[j]).Some? && ParseLine(lines[j]).value.0 == key;
      assert entries[j] == ParseLine(lines[j]);
    }
    if key in ParsedLines(lines) {
      var j := LastEntryFor(entries, key);
      assert entries[j] == ParseLine(lines[j]);
      forall k | j < k < |lines|
        ensures ParseLine(lines[k]).None? || ParseLine(lines[k]).value.0 != key
      {
        assert entries[k] == ParseLine(lines[k]);
      }
    }
  }

  /** Keys never hold a space or an upper-case ASCII letter. */
  lemma NormalizedKeys(line: string)
    requires ParseLine(line).Some?
    ensures var key := ParseLine(line).value.0;
            forall i :: 0 <= i < |key| ==> key[i] != ' ' && !('A' <= key[i] <= 'Z')
  {
  }

  /** Values may hold colons: only the first ':' of a line separates key from value. */
  lemma ValueKeepsColons(key: string, value: string)
    requires ':' !in key
    ensures ParseLine(key + ":" + value) == Some((NormalizeKey(key), NormalizeValue(value)))
  {
    SplitFirstUnique(key + ":" + value, ':', key, value);
  }

  /** `[]` becomes empty and `[x]` becomes `x`. */
  lemma BracketsRemoved(inner: string)
    ensures Unbracket("[]") == ""
    ensures Unbracket("[" + inner + "]") == inner
  {
    assert ("[" + inner + "]")[1..|inner| + 1] == inner;
  }

  // ---------------------------------------------------------------------
  // _parse_frequency
  // ---------------------------------------------------------------------

  /** `\d`, on ASCII digits. */
  predicate IsDigit(c: char)
  {
    '0' <= c <= '9'
  }

  predicate AllDigits(s: string)
  {
    forall i :: 0 <= i < |s| ==> IsDigit(s[i])
  }

  function DigitValue(c: char): nat
    requires IsDigit(c)
  {
    c as int - '0' as int
  }

  /** The integer a digit string denotes. */
  function DecimalValue(s: string): nat
    requires AllDigits(s)
  {
    if s == [] then 0 else DecimalValue(s[..|s| - 1]) * 10 + DigitValue(s[|s| - 1])
  }

  /** The fraction `0.<s>` a digit string denotes after the point. */
  function FractionValue(s: string): (r: real)
    requires AllDigits(s)
    ensures 0.0 <= r < 1.0
  {
    if s == [] then 0.0 else (DigitValue(s[0]) as real + FractionValue(s[1..])) / 10.0
  }

  /** The length of the maximal digit run starting at `i`. */
  function DigitRun(t: string, i: nat): (k: nat)
    requires i <= |t|
    ensures i + k <= |t|
    ensures forall j :: i <= j < i + k ==> IsDigit(t[j])
    ensures i + k == |t| || !IsDigit(t[i + k])
    decreases |t| - i
  {
    if i < |t| && IsDigit(t[i]) then 1 + DigitRun(t, i + 1) else 0
  }

  /**
   * `\d+(?:\.\d+)?` anchored at `i`: the end of the number and its value.
   * The digit runs are maximal; a shorter run would leave a digit or a
   * dangling point in front of what must follow, so for the three unit
   * patterns, and for the first match of the bare pattern, this greedy
   * reading is the only one the regex engine can accept.
   */
  function NumberAt(t: string, i: nat): (r: Option<(nat, real)>)
    requires i <= |t|
    ensures r.Some? <==> i < |t| && IsDigit(t[i])
    ensures r.Some? ==> i < r.value.0 <= |t| && r.value.1 >= 0.0
  {
    var k := DigitRun(t, i);
    if k == 0 then None
    else
      var whole := DecimalValue(t[i..i + k]);
      var j := i + k;
      if j + 1 < |t| && t[j] == '.' && IsDigit(t[j + 1]) then
        var m := DigitRun(t, j + 1);
        Some((j + 1 + m, whole as real + FractionValue(t[j + 1..j + 1 + m])))
      else Some((j, whole as real))
  }

  /** `\s*` from `j`: the first position that is not whitespace. */
  function SkipSpace(t: string, j: nat): (r: nat)
    requires j <= |t|
    ensures j <= r <= |t|
    decreases |t| - j
  {
    if j < |t| && IsSpace(t[j]) then SkipSpace(t, j + 1) else j
  }

  predicate StartsAt(t: string, j: nat, u: string)
  {
    j + |u| <= |t| && t[j..j + |u|] == u
  }

  predicate UnitAt(t: string, j: nat, units: seq<string>)
  {
    exists u :: u in units && StartsAt(t, j, u)
  }

  /** The number of a unit pattern anchored at `i`, when the unit follows it. */
  function MatchAt(t: string, i: nat, units: seq<string>): (r: Option<real>)
    requires i <= |t|
    ensures r.Some? ==> r.value >= 0.0
  {
    match NumberAt(t, i)
    case None => None
    case Some((end, value)) => if UnitAt(t, SkipSpace(t, end), units) then Some(value) else None
  }

  /** `re.search` of a unit pattern from `i`: the leftmost match. */
  function Search(t: string, i: nat, units: seq<string>): (r: Option<real>)
    requires i <= |t|
    ensures r.Some? ==> r.value >= 0.0
    ensures r.Some? ==> exists j :: i <= j < |t| && IsDigit(t[j])
    decreases |t| - i
  {
    if i == |t| then None
    else if MatchAt(t, i, units).Some? then MatchAt(t, i, units)
    else Search(t, i + 1, units)
  }

  /** `re.search(r'(\d+(?:\.\d+)?)', t)` from `i`. */
  function FirstNumber(t: string, i: nat): (r: Option<real>)
    requires i <= |t|
    ensures r.Some? ==> r.value >= 0.0
    ensures r.Some? <==> exists j :: i <= j < |t| && IsDigit(t[j])
    decreases |t| - i
  {
    if i == |t| then None
    else if NumberAt(t, i).Some? then Some(NumberAt(t, i).value.1)
    else FirstNumber(t, i + 1)
  }

  /** `text.replace(',', '')`. */
  function RemoveCommas(s: string): (r: string)
    ensures ',' !in r
    ensures forall c :: c in r ==> c in s
  {
    if s == [] then []
    else (if s[0] == ',' then [] else [s[0]]) + RemoveCommas(s[1..])
  }

  predicate Contains(s: string, sub: string)
  {
    exists i: nat | i <= |s| :: StartsAt(s, i, sub)
  }

  const MegaUnits := ["MHz", "mhz", "Mhz"]
  const KiloUnits := ["kHz", "khz", "Khz"]
  const HertzUnits := ["Hz", "hz", "Hz"]

  /** `int(value * multiplier)` for a non-negative value. */
  function Scaled(value: real, multiplier: nat): (r: nat)
    requires value >= 0.0
    ensures r as real <= value * multiplier as real < r as real + 1.0
  {
    Framing.Trunc(value * multiplier as real)
  }

  /** _parse_frequency: the frequency in Hz, or None; a frequency is only read where the text holds a digit. */
  function ParseFrequency(text: string): (r: Option<nat>)
    ensures r.Some? ==> exists j :: 0 <= j < |text| && IsDigit(text[j])
  {
    DigitsSurviveCommas(text);
    var t := RemoveCommas(text);
    match Search(t, 0, MegaUnits)
    case Some(v) => Some(Scaled(v, 1000000))
    case None =>
      match Search(t, 0, KiloUnits)
      case Some(v) => Some(Scaled(v, 1000))
      case None =>
        match Search(t, 0, HertzUnits)
        case Some(v) => Some(Scaled(v, 1))
        case None =>
          var number := FirstNumber(t, 0);
          if (Contains(Lower(text), "mhz") || Contains(text, "MHz")) && number.Some? then
            Some(Scaled(number.value, 1000000))
          else if (Contains(Lower(text), "khz") || Contains(text, "kHz")) && number.Some? then
            Some(Scaled(number.value, 1000))
          else None
  }

  // Proof support for the frequency extractor

  /** A digit left after removing the commas was a digit of the text. */
  lemma DigitsSurviveCommas(text: string)
    ensures (exists j :: 0 <= j < |RemoveCommas(text)| && IsDigit(RemoveCommas(text)[j]))
            ==> exists j :: 0 <= j < |text| && IsDigit(text[j])
  {
    var t := RemoveCommas(text);
    if j :| 0 <= j < |t| && IsDigit(t[j]) {
      assert t[j] in text;
      var k :| 0 <= k < |text| && text[k] == t[j];
    }
  }

  function DigitChar(d: nat): (c: char)
    requires d < 10
    ensures IsDigit(c) && DigitValue(c) == d
  {
    ('0' as int + d) as char
  }

  /** `str(n)`. */
  function DecimalString(n: nat): (s: string)
    ensures |s| >= 1 && AllDigits(s)
    ensures DecimalValue(s) == n
  {
    if n < 10 then [DigitChar(n)]
    else
      var s := DecimalString(n / 10) + [DigitChar(n % 10)];
      assert s[..|s| - 1] == DecimalString(n / 10);
      s
  }

  lemma {:induction false} DigitRunUpTo(t: string, i: nat, e: nat)
    requires i <= e <= |t|
    requires forall j :: i <= j < e ==> IsDigit(t[j])
    requires e == |t| || !IsDigit(t[e])
    ensures DigitRun(t, i) == e - i
    decreases e - i
  {
    if i < e {
      DigitRunUpTo(t, i + 1, e);
    }
  }

  /**
   * A match attempt at `i` inside a digit run that ends in a space at `e`
   * reads up to `e`, and the unit test looks at the first character after
   * the space.
   */
  lemma NumberEndsAt(t: string, i: nat, e: nat, units: seq<string>)
    requires i < e && e + 1 < |t|
    requires forall j :: i <= j < e ==> IsDigit(t[j])
    requires t[e] == ' ' && !IsSpace(t[e + 1])
    ensures NumberAt(t, i) == Some((e, DecimalValue(t[i..e]) as real))
    ensures SkipSpace(t, e) == e + 1
    ensures MatchAt(t, i, units).Some? <==> UnitAt(t, e + 1, units)
  {
    DigitRunUpTo(t, i, e);
    assert SkipSpace(t, e + 1) == e + 1;
  }

  /**
   * In `pre + D + " " + word`, a match attempt anywhere inside the digit
   * string `D` reads up to the end of `D`, and the unit test looks at the
   * start of `word`.
   */
  lemma NumberBeforeWord(pre: string, d: string, word: string, i: nat, units: seq<string>)
    requires |d| >= 1 && AllDigits(d)
    requires |word| >= 1 && !IsSpace(word[0])
    requires |pre| <= i < |pre| + |d|
    ensures var t := pre + d + " " + word;
            && NumberAt(t, i) == Some((|pre| + |d|, DecimalValue(d[i - |pre|..]) as real))
            && SkipSpace(t, |pre| + |d|) == |pre| + |d| + 1
            && (MatchAt(t, i, units).Some? <==> UnitAt(t, |pre| + |d| + 1, units))
  {
    var t := pre + d + " " + word;
    var e := |pre| + |d|;
    assert forall j :: |pre| <= j < e ==> t[j] == d[j - |pre|];
    assert t[e] == ' ' && t[e + 1] == word[0];
    NumberEndsAt(t, i, e, units);
    assert t[i..e] == d[i - |pre|..];
  }

  /** No unit of `units` can start with `c`. */
  predicate NoUnitStartsWith(units: seq<string>, c: char)
  {
    forall u :: u in units ==> |u| >= 1 && u[0] != c
  }

  lemma {:induction false} SearchSkips(t: string, i: nat, e: nat, units: seq<string>)
    requires i <= e <= |t|
    requires forall j :: i <= j < e ==> MatchAt(t, j, units).None?
    ensures Search(t, i, units) == Search(t, e, units)
    decreases e - i
  {
    if i < e {
      SearchSkips(t, i + 1, e, units);
    }
  }

  lemma NoDigitNoMatch(t: string, j: nat, units: seq<string>)
    requires j < |t| && !IsDigit(t[j])
    ensures NumberAt(t, j).None? && MatchAt(t, j, units).None?
  {
  }

  /** `D + " " + word` when no unit of `units` starts `word`: the pattern never matches. */
  lemma NoMatchBeforeWord(d: string, word: string, units: seq<string>)
    requires |d| >= 1 && AllDigits(d)
    requires |word| >= 1 && !IsSpace(word[0]) && NoUnitStartsWith(units, word[0])
    requires forall j :: 0 <= j < |word| ==> !IsDigit(word[j])
    ensures Search(d + " " + word, 0, units).None?
  {
    var t := d + " " + word;
    forall j | 0 <= j < |t|
      ensures MatchAt(t, j, units).None?
    {
      if j < |d| {
        NumberBeforeWord([], d, word, j, units);
        assert [] + d == d;
      } else {
        assert !IsDigit(t[j]);
        NoDigitNoMatch(t, j, units);
      }
    }
    SearchSkips(t, 0, |t|, units);
  }

  /** A whole number followed by "MHz", with or without a space, is read back exactly, in Hz. */
  lemma MegaRoundTrip(n: nat, sep: string)
    requires IsSeparator(sep)
    ensures ParseFrequency(DecimalString(n) + sep + "MHz") == Some(n * 1000000)
  {
    var d := DecimalString(n);
    assert NumberText(d, "") == d;
    MegaReads(d, "", sep);
    ScaledWhole(n, 1000000);
  }

  /** A whole number followed by "kHz", with or without a space, is read back exactly, in Hz. */
  lemma KiloRoundTrip(n: nat, sep: string)
    requires IsSeparator(sep)
    ensures ParseFrequency(DecimalString(n) + sep + "kHz") == Some(n * 1000)
  {
    var d := DecimalString(n);
    assert NumberText(d, "") == d;
    KiloReads(d, "", sep);
    ScaledWhole(n, 1000);
  }

  /** A whole number followed by "Hz", with or without a space, is read back exactly. */
  lemma HertzRoundTrip(n: nat, sep: string)
    requires IsSeparator(sep)
    ensures ParseFrequency(DecimalString(n) + sep + "Hz") == Some(n)
  {
    var d := DecimalString(n);
    assert NumberText(d, "") == d;
    HertzReads(d, "", sep);
    ScaledWhole(n, 1);
  }

  /** The units hold no digit, and none of the larger units starts like a smaller one. */
  lemma UnitInitials()
    ensures forall j :: 0 <= j < |"kHz"| ==> !IsDigit("kHz"[j])
    ensures forall j :: 0 <= j < |"Hz"| ==> !IsDigit("Hz"[j])
    ensures !IsSpace('k') && !IsSpace('H')
    ensures NoUnitStartsWith(MegaUnits, 'k') && NoUnitStartsWith(MegaUnits, 'H') && NoUnitStartsWith(KiloUnits, 'H')
  {
  }

  /** The text `D` or `D.F` of a number with integer digits `D` and fraction digits `F`. */
  function NumberText(d: string, f: string): string
  {
    if f == [] then d else d + "." + f
  }

  /** The value `float` gives that text. */
  function NumberValue(d: string, f: string): (v: real)
    requires AllDigits(d) && AllDigits(f)
    ensures v >= 0.0
  {
    DecimalValue(d) as real + FractionValue(f)
  }

  /** A separator `\s*` can consume between the number and the unit: none or one space. */
  predicate IsSeparator(sep: string)
  {
    sep == "" || sep == " "
  }

  /**
   * In `NumberText(D, F) + rest`, where `rest` starts with neither a digit
   * nor a point, a match attempt at any digit of the number reads to its
   * end; from the first digit it reads the value `D.F`.
   */
  lemma NumberAtText(d: string, f: string, rest: string, j: nat)
    requires |d| >= 1 && AllDigits(d) && AllDigits(f)
    requires rest == [] || (!IsDigit(rest[0]) && rest[0] != '.')
    requires j < |NumberText(d, f)| && j != |d|
    ensures var t := NumberText(d, f) + rest;
            && NumberAt(t, j).Some? && NumberAt(t, j).value.0 == |NumberText(d, f)|
            && (j == 0 ==> NumberAt(t, j).value.1 == NumberValue(d, f))
  {
    if j < |d| {
      IntegerPartReads(d, f, rest, j);
      assert d[0..] == d;
    } else {
      FractionPartReads(d, f, rest, j);
    }
  }

  /** From a digit of `D`, the match reads the rest of `D` and then the fraction, if any. */
  lemma IntegerPartReads(d: string, f: string, rest: string, j: nat)
    requires |d| >= 1 && AllDigits(d) && AllDigits(f)
    requires rest == [] || (!IsDigit(rest[0]) && rest[0] != '.')
    requires j < |d|
    ensures var r := NumberAt(NumberText(d, f) + rest, j);
            && r.Some? && r.value.0 == |NumberText(d, f)|
            && r.value.1 == DecimalValue(d[j..]) as real + FractionValue(f)
  {
    if f == [] {
      IntegerOnlyReads(d, f, rest, j);
    } else {
      IntegerThenFractionReads(d, f, rest, j);
    }
  }

  lemma IntegerOnlyReads(d: string, f: string, rest: string, j: nat)
    requires AllDigits(d) && f == [] && j < |d|
    requires rest == [] || (!IsDigit(rest[0]) && rest[0] != '.')
    ensures var r := NumberAt(NumberText(d, f) + rest, j);
            && r.Some? && r.value.0 == |NumberText(d, f)|
            && r.value.1 == DecimalValue(d[j..]) as real + FractionValue(f)
  {
    assert NumberText(d, f) == d;
    WholeTextReads(d, rest, j);
  }

  lemma IntegerThenFractionReads(d: string, f: string, rest: string, j: nat)
    requires AllDigits(d) && AllDigits(f) && f != [] && j < |d|
    requires rest == [] || !IsDigit(rest[0])
    ensures var r := NumberAt(NumberText(d, f) + rest, j);
            && r.Some? && r.value.0 == |NumberText(d, f)|
            && r.value.1 == DecimalValue(d[j..]) as real + FractionValue(f)
  {
    assert NumberText(d, f) + rest == d + ("." + f + rest);
    DecimalTextReads(d, f, rest, j);
  }

  lemma WholeTextReads(d: string, rest: string, j: nat)
    requires AllDigits(d) && j < |d|
    requires rest == [] || (!IsDigit(rest[0]) && rest[0] != '.')
    ensures var r := NumberAt(d + rest, j);
            r.Some? && r.value.0 == |d| && r.value.1 == DecimalValue(d[j..]) as real
  {
    var t := d + rest;
    assert forall k :: 0 <= k < |d| ==> t[k] == d[k];
    assert |d| == |t| || t[|d|] == rest[0];
    WholeNumberAt(t, j, |d|);
    assert t[j..|d|] == d[j..];
  }

  lemma DecimalTextReads(d: string, f: string, rest: string, j: nat)
    requires AllDigits(d) && AllDigits(f) && |f| >= 1 && j < |d|
    requires rest == [] || !IsDigit(rest[0])
    ensures var r := NumberAt(d + ("." + f + rest), j);
            && r.Some? && r.value.0 == |d| + 1 + |f|
            && r.value.1 == DecimalValue(d[j..]) as real + FractionValue(f)
  {
    var tail := "." + f + rest;
    var t := d + tail;
    FractionTail(f, rest);
    var m := |f| + 1;
    PointAfterDigits(d, tail, j, m);
    DecimalSlices(d, f, rest, j, m);
  }

  /** The tail `.F rest` starts with a point followed by exactly the digits of `F`. */
  lemma FractionTail(f: string, rest: string)
    requires AllDigits(f) && |f| >= 1
    requires rest == [] || !IsDigit(rest[0])
    ensures var tail := "." + f + rest;
            && 1 < |f| + 1 <= |tail| && tail[0] == '.'
            && (forall k :: 1 <= k < |f| + 1 ==> IsDigit(tail[k]))
            && (|f| + 1 == |tail| || !IsDigit(tail[|f| + 1]))
  {
    var tail := "." + f + rest;
    assert forall k :: 1 <= k < |f| + 1 ==> tail[k] == f[k - 1];
    assert |f| + 1 == |tail| || tail[|f| + 1] == rest[0];
  }

  /** In `D + ".F rest"`, the slices the reader takes are the tail of `D` and `F`. */
  lemma DecimalSlices(d: string, f: string, rest: string, j: nat, m: nat)
    requires j < |d| && m == |f| + 1
    ensures var t := d + ("." + f + rest);
            && t[j..|d|] == d[j..]
            && t[|d| + 1..|d| + m] == f
  {
    var t := d + ("." + f + rest);
    assert t[j..|d|] == d[j..];
    assert t[|d| + 1..|d| + m] == f;
  }

  /** `d + tail` with the digits `d`, then a point and digits in `tail` up to `m`, meets `DecimalNumberAt`. */
  lemma PointAfterDigits(d: string, tail: string, j: nat, m: nat)
    requires AllDigits(d) && j < |d|
    requires 1 < m <= |tail| && tail[0] == '.'
    requires forall k :: 1 <= k < m ==> IsDigit(tail[k])
    requires m == |tail| || !IsDigit(tail[m])
    ensures NumberAt(d + tail, j)
            == Some((|d| + m, DecimalValue((d + tail)[j..|d|]) as real + FractionValue((d + tail)[|d| + 1..|d| + m])))
  {
    var t := d + tail;
    assert forall k :: 0 <= k < |d| ==> t[k] == d[k];
    assert forall k :: |d| <= k < |t| ==> t[k] == tail[k - |d|];
    DecimalNumberAt(t, j, |d|, |d| + m);
  }

  /** A digit run from `i` to `e` not followed by `.digit` is read as a whole number. */
  lemma WholeNumberAt(t: string, i: nat, e: nat)
    requires i < e <= |t|
    requires forall k :: i <= k < e ==> IsDigit(t[k])
    requires e == |t| || (!IsDigit(t[e]) && t[e] != '.')
    ensures NumberAt(t, i) == Some((e, DecimalValue(t[i..e]) as real))
  {
    DigitRunUpTo(t, i, e);
  }

  /** Digits from `i` to `p`, a point, and digits from `p + 1` to `e` are read as `D.F`. */
  lemma DecimalNumberAt(t: string, i: nat, p: nat, e: nat)
    requires i < p && p + 1 < e <= |t|
    requires forall k :: i <= k < p ==> IsDigit(t[k])
    requires t[p] == '.'
    requires forall k :: p + 1 <= k < e ==> IsDigit(t[k])
    requires e == |t| || !IsDigit(t[e])
    ensures NumberAt(t, i) == Some((e, DecimalValue(t[i..p]) as real + FractionValue(t[p + 1..e])))
  {
    DigitRunUpTo(t, i, p);
    DigitRunUpTo(t, p + 1, e);
  }

  /** From a digit of `F`, the match reads the rest of `F` and no further. */
  lemma FractionPartReads(d: string, f: string, rest: string, j: nat)
    requires AllDigits(f)
    requires rest == [] || (!IsDigit(rest[0]) && rest[0] != '.')
    requires |d| < j < |NumberText(d, f)|
    ensures var t := NumberText(d, f) + rest;
            && NumberAt(t, j).Some? && NumberAt(t, j).value.0 == |NumberText(d, f)|
  {
    var t := NumberText(d, f) + rest;
    var e := |NumberText(d, f)|;
    assert forall k :: |d| + 1 <= k < e ==> t[k] == f[k - |d| - 1];
    assert e == |t| || t[e] == rest[0];
    DigitRunUpTo(t, j, e);
  }

  /** After a number ending at `e`, `\s*` stops at the first character of `word`. */
  lemma SeparatorSkipped(head: string, sep: string, word: string)
    requires IsSeparator(sep) && |word| >= 1 && !IsSpace(word[0])
    ensures var t := head + sep + word;
            && SkipSpace(t, |head|) == |head| + |sep|
            && t[|head| + |sep|] == word[0]
  {
    var t := head + sep + word;
    assert t[|head| + |sep|] == word[0];
    if sep == " " {
      assert t[|head|] == ' ';
      assert SkipSpace(t, |head| + 1) == |head| + 1;
    }
  }

  /** `NumberText(D, F) + sep + unit` matches the pattern of `unit` at once, reading `D.F`. */
  lemma NumberUnitFirst(d: string, f: string, sep: string, unit: string, units: seq<string>)
    requires |d| >= 1 && AllDigits(d) && AllDigits(f) && IsSeparator(sep)
    requires unit in units && |unit| >= 1 && !IsSpace(unit[0]) && !IsDigit(unit[0]) && unit[0] != '.'
    ensures Search(NumberText(d, f) + sep + unit, 0, units) == Some(NumberValue(d, f))
  {
    var n := NumberText(d, f);
    var t := n + sep + unit;
    assert t == n + (sep + unit);
    NumberAtText(d, f, sep + unit, 0);
    SeparatorSkipped(n, sep, unit);
    UnitEnds(n + sep, unit);
    MatchFirst(t, |n|, NumberValue(d, f), unit, units);
  }

  /** `head + unit` holds `unit` right after `head`. */
  lemma UnitEnds(head: string, unit: string)
    ensures StartsAt(head + unit, |head|, unit)
  {
    assert (head + unit)[|head|..|head| + |unit|] == unit;
  }

  /** A number read from the first position and followed by a unit of `units` is the leftmost match. */
  lemma MatchFirst(t: string, e: nat, v: real, unit: string, units: seq<string>)
    requires 0 < |t| && e <= |t|
    requires NumberAt(t, 0) == Some((e, v)) && unit in units && StartsAt(t, SkipSpace(t, e), unit)
    ensures Search(t, 0, units) == Some(v)
  {
  }

  /** When no unit of `units` starts `word`, the pattern never matches `NumberText(D, F) + sep + word`. */
  lemma NoUnitAfterNumber(d: string, f: string, sep: string, word: string, units: seq<string>)
    requires |d| >= 1 && AllDigits(d) && AllDigits(f) && IsSeparator(sep)
    requires |word| >= 1 && !IsSpace(word[0]) && word[0] != '.' && NoUnitStartsWith(units, word[0])
    requires forall j :: 0 <= j < |word| ==> !IsDigit(word[j])
    ensures Search(NumberText(d, f) + sep + word, 0, units).None?
  {
    var n := NumberText(d, f);
    var t := n + sep + word;
    assert t == n + (sep + word);
    SeparatorSkipped(n, sep, word);
    forall j | 0 <= j < |t|
      ensures MatchAt(t, j, units).None?
    {
      if j < |n| && j != |d| {
        NumberAtText(d, f, sep + word, j);
        NoUnitAt(t, j, |n|, |n| + |sep|, units);
      } else {
        NotDigitAround(d, f, sep, word, j);
        NoDigitNoMatch(t, j, units);
      }
    }
    SearchSkips(t, 0, |t|, units);
  }

  /** A number whose `\s*` stops at a character no unit starts with is not followed by a unit. */
  lemma NoUnitAt(t: string, j: nat, e: nat, p: nat, units: seq<string>)
    requires j <= |t| && NumberAt(t, j).Some? && NumberAt(t, j).value.0 == e
    requires SkipSpace(t, e) == p && p < |t| && NoUnitStartsWith(units, t[p])
    ensures MatchAt(t, j, units).None?
  {
  }

  /** Outside the digits of the number, `NumberText(D, F) + sep + word` holds no digit. */
  lemma NotDigitAround(d: string, f: string, sep: string, word: string, j: nat)
    requires IsSeparator(sep) && forall k :: 0 <= k < |word| ==> !IsDigit(word[k])
    requires j < |NumberText(d, f) + sep + word|
    requires j == |d| || j >= |NumberText(d, f)|
    ensures !IsDigit((NumberText(d, f) + sep + word)[j])
  {
    var n := NumberText(d, f);
    var t := n + sep + word;
    if j < |n| {
      assert t[j] == '.';
    } else if j < |n| + |sep| {
      assert t[j] == ' ';
    } else {
      assert t[j] == word[j - |n| - |sep|];
    }
  }

  /** `NumberText(D, F) + sep + unit` holds no comma when `unit` holds none. */
  lemma NumberTextCommaFree(d: string, f: string, sep: string, unit: string)
    requires AllDigits(d) && AllDigits(f) && IsSeparator(sep) && ',' !in unit
    ensures RemoveCommas(NumberText(d, f) + sep + unit) == NumberText(d, f) + sep + unit
  {
    DigitsHaveNoComma(d);
    DigitsHaveNoComma(f);
    assert ',' !in NumberText(d, f) by {
      if f != [] {
        assert NumberText(d, f) == d + "." + f;
      }
    }
    assert ',' !in sep + unit;
    NoCommas(NumberText(d, f) + sep + unit);
  }

  /** "D MHz", "DMHz", "D.F MHz" and "D.FMHz" are read as `D.F`·10^6 Hz, truncated. */
  lemma MegaReads(d: string, f: string, sep: string)
    requires |d| >= 1 && AllDigits(d) && AllDigits(f) && IsSeparator(sep)
    ensures ParseFrequency(NumberText(d, f) + sep + "MHz") == Some(Scaled(NumberValue(d, f), 1000000))
  {
    var t := NumberText(d, f) + sep + "MHz";
    NumberTextCommaFree(d, f, sep, "MHz");
    NumberUnitFirst(d, f, sep, "MHz", MegaUnits);
    MegaDecides(t, NumberValue(d, f));
  }

  /** "D kHz", "DkHz", "D.F kHz" and "D.FkHz" are read as `D.F`·1000 Hz: the MHz pattern does not match. */
  lemma KiloReads(d: string, f: string, sep: string)
    requires |d| >= 1 && AllDigits(d) && AllDigits(f) && IsSeparator(sep)
    ensures ParseFrequency(NumberText(d, f) + sep + "kHz") == Some(Scaled(NumberValue(d, f), 1000))
  {
    var t := NumberText(d, f) + sep + "kHz";
    NumberTextCommaFree(d, f, sep, "kHz");
    UnitInitials();
    NoUnitAfterNumber(d, f, sep, "kHz", MegaUnits);
    NumberUnitFirst(d, f, sep, "kHz", KiloUnits);
    KiloDecides(t, NumberValue(d, f));
  }

  /** "D Hz", "DHz", "D.F Hz" and "D.FHz" are read as `D.F` Hz, truncated: neither larger unit matches. */
  lemma HertzReads(d: string, f: string, sep: string)
    requires |d| >= 1 && AllDigits(d) && AllDigits(f) && IsSeparator(sep)
    ensures ParseFrequency(NumberText(d, f) + sep + "Hz") == Some(Scaled(NumberValue(d, f), 1))
  {
    var t := NumberText(d, f) + sep + "Hz";
    NumberTextCommaFree(d, f, sep, "Hz");
    UnitInitials();
    NoUnitAfterNumber(d, f, sep, "Hz", MegaUnits);
    NoUnitAfterNumber(d, f, sep, "Hz", KiloUnits);
    NumberUnitFirst(d, f, sep, "Hz", HertzUnits);
    HertzDecides(t, NumberValue(d, f));
  }

  lemma NoCommas(t: string)
    requires ',' !in t
    ensures RemoveCommas(t) == t
  {
    if t != [] {
      NoCommas(t[1..]);
      assert t == [t[0]] + t[1..];
    }
  }

  lemma DigitsHaveNoComma(d: string)
    requires AllDigits(d)
    ensures ',' !in d
  {
  }

  /** In `pre + D + " " + word`, no match of `units` starts inside `D` when no unit starts `word`. */
  lemma NoMatchInNumber(pre: string, d: string, word: string, j: nat, units: seq<string>)
    requires |d| >= 1 && AllDigits(d)
    requires |word| >= 1 && !IsSpace(word[0]) && NoUnitStartsWith(units, word[0])
    requires |pre| <= j < |pre| + |d|
    ensures MatchAt(pre + d + " " + word, j, units).None?
  {
    var t := pre + d + " " + word;
    NumberBeforeWord(pre, d, word, j, units);
    assert t[|pre| + |d| + 1] == word[0];
  }

  /**
   * The patterns are tried in order over the whole text: a number with MHz
   * wins even when a number with kHz comes first.
   */
  lemma MegaBeatsEarlierKilo(a: nat, b: nat)
    ensures ParseFrequency(DecimalString(a) + " kHz " + DecimalString(b) + " MHz") == Some(b * 1000000)
  {
    var da, db := DecimalString(a), DecimalString(b);
    var t := da + " kHz " + db + " MHz";
    TwoNumbersText(da, db, t);
    MegaAfterKilo(da, db, t);
    MegaDecides(t, b as real);
    ScaledWhole(b, 1000000);
  }

  /** `A + " kHz " + B + " MHz"` holds no comma. */
  lemma TwoNumbersText(da: string, db: string, t: string)
    requires AllDigits(da) && AllDigits(db)
    requires t == da + " kHz " + db + " MHz"
    ensures RemoveCommas(t) == t
  {
    DigitsHaveNoComma(da);
    DigitsHaveNoComma(db);
    NoCommas(t);
  }

  /** In `A + " kHz " + B + " MHz"` the leftmost match of the MHz pattern reads `B`. */
  lemma MegaAfterKilo(da: string, db: string, t: string)
    requires |da| >= 1 && AllDigits(da) && |db| >= 1 && AllDigits(db)
    requires t == da + " kHz " + db + " MHz"
    ensures Search(t, 0, MegaUnits) == Some(DecimalValue(db) as real)
  {
    var pre := da + " kHz ";
    assert t == pre + db + " " + "MHz";
    assert t == [] + da + " " + ("kHz " + db + " MHz");
    forall j | 0 <= j < |pre|
      ensures MatchAt(t, j, MegaUnits).None?
    {
      if j < |da| {
        NoMatchInNumber([], da, "kHz " + db + " MHz", j, MegaUnits);
      } else {
        assert t[j] == " kHz "[j - |da|];
        NoDigitNoMatch(t, j, MegaUnits);
      }
    }
    SearchSkips(t, 0, |pre|, MegaUnits);
    NumberThenUnitAfter(pre, db, "MHz", MegaUnits);
  }

  /** `pre + D + " " + unit` matches the pattern of `unit` at the start of `D`. */
  lemma NumberThenUnitAfter(pre: string, d: string, unit: string, units: seq<string>)
    requires |d| >= 1 && AllDigits(d)
    requires unit in units && |unit| >= 1 && !IsSpace(unit[0])
    ensures MatchAt(pre + d + " " + unit, |pre|, units) == Some(DecimalValue(d) as real)
  {
    var t := pre + d + " " + unit;
    var head := pre + d + " ";
    assert t == head + unit && |head| == |pre| + |d| + 1;
    assert t[|head|..|head| + |unit|] == unit;
    assert StartsAt(t, |pre| + |d| + 1, unit);
    NumberBeforeWord(pre, d, unit, |pre|, units);
    assert d[0..] == d;
  }

  /** `Lower(t)` holds a lower-case word wherever `t` holds it. */
  lemma LoweredContains(t: string, k: nat, w: string)
    requires StartsAt(t, k, w)
    requires forall i :: 0 <= i < |w| ==> LowerChar(w[i]) == w[i]
    ensures Contains(Lower(t), w)
  {
    forall i | 0 <= i < |w|
      ensures Lower(t)[k + i] == w[i]
    {
      assert t[k + i] == t[k..k + |w|][i];
    }
    assert Lower(t)[k..k + |w|] == w;
    assert StartsAt(Lower(t), k, w);
  }

  /** A number with MHz decides the result. */
  lemma MegaDecides(text: string, v: real)
    requires Search(RemoveCommas(text), 0, MegaUnits) == Some(v)
    ensures v >= 0.0 && ParseFrequency(text) == Some(Scaled(v, 1000000))
  {
  }

  /** Without a number with MHz, a number with kHz decides the result. */
  lemma KiloDecides(text: string, v: real)
    requires Search(RemoveCommas(text), 0, MegaUnits).None?
    requires Search(RemoveCommas(text), 0, KiloUnits) == Some(v)
    ensures v >= 0.0 && ParseFrequency(text) == Some(Scaled(v, 1000))
  {
  }

  /** Without a number with MHz or kHz, a number with Hz decides the result. */
  lemma HertzDecides(text: string, v: real)
    requires Search(RemoveCommas(text), 0, MegaUnits).None?
    requires Search(RemoveCommas(text), 0, KiloUnits).None?
    requires Search(RemoveCommas(text), 0, HertzUnits) == Some(v)
    ensures v >= 0.0 && ParseFrequency(text) == Some(Scaled(v, 1))
  {
  }

  /** With no number next to a unit, the first number is scaled by 10^6 when "mhz" appears. */
  lemma MegaFallbackDecides(text: string, v: real)
    requires Search(RemoveCommas(text), 0, MegaUnits).None?
    requires Search(RemoveCommas(text), 0, KiloUnits).None?
    requires Search(RemoveCommas(text), 0, HertzUnits).None?
    requires FirstNumber(RemoveCommas(text), 0) == Some(v)
    requires Contains(Lower(text), "mhz")
    ensures v >= 0.0 && ParseFrequency(text) == Some(Scaled(v, 1000000))
  {
  }

  /** Scaling a whole number is exact. */
  lemma ScaledWhole(n: nat, multiplier: nat)
    ensures Scaled(n as real, multiplier) == n * multiplier
  {
  }

  /** The first number of `D + " " + word` is `D`. */
  lemma FirstNumberLeads(d: string, word: string)
    requires |d| >= 1 && AllDigits(d)
    requires |word| >= 1 && !IsSpace(word[0])
    ensures FirstNumber(d + " " + word, 0) == Some(DecimalValue(d) as real)
  {
    assert d + " " + word == [] + d + " " + word;
    NumberBeforeWord([], d, word, 0, []);
    assert d[0..] == d;
  }

  /** In `D + " on mhz"` no unit pattern matches, and the first number is `D`. */
  lemma NumberOnMhz(d: string, t: string)
    requires |d| >= 1 && AllDigits(d)
    requires t == d + " " + "on mhz"
    ensures Search(t, 0, MegaUnits).None? && Search(t, 0, KiloUnits).None? && Search(t, 0, HertzUnits).None?
    ensures FirstNumber(t, 0) == Some(DecimalValue(d) as real)
  {
    var word := "on mhz";
    assert !IsSpace(word[0]) && forall j :: 0 <= j < |word| ==> !IsDigit(word[j]);
    assert NoUnitStartsWith(MegaUnits, 'o') && NoUnitStartsWith(KiloUnits, 'o') && NoUnitStartsWith(HertzUnits, 'o');
    NoMatchBeforeWord(d, word, MegaUnits);
    NoMatchBeforeWord(d, word, KiloUnits);
    NoMatchBeforeWord(d, word, HertzUnits);
    FirstNumberLeads(d, word);
  }

  /** With no number next to a unit, the first number counts as MHz when "mhz" appears anywhere. */
  lemma MegaMentionedElsewhere(n: nat)
    ensures ParseFrequency(DecimalString(n) + " on mhz") == Some(n * 1000000)
  {
    var d := DecimalString(n);
    var t := d + " on mhz";
    MentionedText(d, t);
    MentionedFacts(d, t);
    MegaFallbackDecides(t, n as real);
    ScaledWhole(n, 1000000);
  }

  /** What the parser sees in `D + " on mhz"`: no unit match, and `D` first. */
  lemma MentionedFacts(d: string, t: string)
    requires |d| >= 1 && AllDigits(d)
    requires t == d + " on mhz"
    ensures Search(t, 0, MegaUnits).None? && Search(t, 0, KiloUnits).None? && Search(t, 0, HertzUnits).None?
    ensures FirstNumber(t, 0) == Some(DecimalValue(d) as real)
  {
    assert t == d + " " + "on mhz";
    NumberOnMhz(d, t);
  }

  /** `D + " on mhz"` holds no comma, and "mhz" appears in it. */
  lemma MentionedText(d: string, t: string)
    requires AllDigits(d)
    requires t == d + " on mhz"
    ensures RemoveCommas(t) == t
    ensures Contains(Lower(t), "mhz")
  {
    CommaFree(d, " on mhz");
    NoCommas(t);
    assert t == (d + " on ") + "mhz";
    MhzAtEnd(d + " on ", t);
  }

  lemma CommaFree(d: string, word: string)
    requires AllDigits(d) && ',' !in word
    ensures ',' !in d + word
  {
    DigitsHaveNoComma(d);
  }

  lemma MhzAtEnd(head: string, t: string)
    requires t == head + "mhz"
    ensures Contains(Lower(t), "mhz")
  {
    assert t[|head|..|head| + 3] == "mhz";
    LoweredContains(t, |head|, "mhz");
  }

  /** Text without a digit never yields a frequency. */
  lemma NoDigitNoFrequency(text: string)
    requires forall i :: 0 <= i < |text| ==> !IsDigit(text[i])
    ensures ParseFrequency(text).None?
  {
    var t := RemoveCommas(text);
    assert forall i :: 0 <= i < |t| ==> t[i] in text;
    forall units | units in [MegaUnits, KiloUnits, HertzUnits]
      ensures Search(t, 0, units).None?
    {
      forall j | 0 <= j < |t|
        ensures MatchAt(t, j, units).None?
      {
        NoDigitNoMatch(t, j, units);
      }
      SearchSkips(t, 0, |t|, units);
    }
    FirstNumberNone(t, 0);
  }

  lemma {:induction false} FirstNumberNone(t: string, i: nat)
    requires i <= |t|
    requires forall j :: 0 <= j < |t| ==> !IsDigit(t[j])
    ensures FirstNumber(t, i).None?
    decreases |t| - i
  {
    if i < |t| {
      FirstNumberNone(t, i + 1);
    }
  }

  // ---------------------------------------------------------------------
  // evaluate_request, after the model has answered
  // ---------------------------------------------------------------------

  /** A dictionary value: the parser yields text, the error reply also holds False and None. */
  datatype Value = Text(text: string) | Flag(flag: bool) | Null

  const NeedFrequencyMessage := "Need a specific frequency to tune to"

  /** The reply evaluate_request gives when the model call or the tuning raises. */
  function ErrorAnalysis(message: string): map<string, Value>
  {
    map["requires_tuning" := Flag(false), "confidence" := Text("low"),
        "reasoning" := Text("Error processing request: " + message),
        "frequency_mentioned" := Text("none"), "needs_info" := Null]
  }

  function AsValues(m: map<string, string>): (r: map<string, Value>)
    ensures r.Keys == m.Keys && forall k :: k in m ==> r[k] == Text(m[k])
  {
    map k | k in m :: Text(m[k])
  }

  function GetOr(m: map<string, string>, key: string, default: string): string
  {
    if key in m then m[key] else default
  }

  predicate AsksForTuning(analysis: map<string, string>)
  {
    "requires_tuning" in analysis && analysis["requires_tuning"] == "true"
  }

  /**
   * The frequency to tune to: the one in the request, unless it is missing
   * or zero, then the one in `frequency_mentioned`; zero counts as none.
   */
  function TuningFrequency(userInput: string, analysis: map<string, string>): (r: Option<nat>)
    ensures r.Some? ==> r.value > 0
    ensures r.Some? ==> r == ParseFrequency(userInput) || r == ParseFrequency(GetOr(analysis, "frequency_mentioned", ""))
  {
    var fromInput := ParseFrequency(userInput);
    if fromInput.Some? && fromInput.value != 0 then fromInput
    else
      var fromAnswer := ParseFrequency(GetOr(analysis, "frequency_mentioned", ""));
      if fromAnswer.Some? && fromAnswer.value != 0 then fromAnswer else None
  }

  /** The reply and the frequency handed to the tuning tool, if any. */
  datatype Evaluation = Evaluation(analysis: map<string, Value>, tunedTo: Option<nat>)

  /**
   * evaluate_request from the model's answer on: `answer` is the model's
   * output or the message of the exception it raised, and `tune` is the
   * tuning tool.
   */
  function Evaluate(userInput: string, answer: Result<string, string>, tune: nat -> Result<string, string>): Evaluation
  {
    match answer
    case Err(message) => Evaluation(ErrorAnalysis(message), None)
    case Ok(output) =>
      var parsed := ParsedLines(ResponseLines(output));
      if !AsksForTuning(parsed) then Evaluation(AsValues(parsed), None)
      else
        match TuningFrequency(userInput, parsed)
        case None =>
          Evaluation(AsValues(parsed)["requires_tuning" := Text("false")]["needs_info" := Text(NeedFrequencyMessage)], None)
        case Some(freq) =>
          match tune(freq)
          case Ok(tuningResult) => Evaluation(AsValues(parsed)["tuning_result" := Text(tuningResult)], Some(freq))
          case Err(message) => Evaluation(ErrorAnalysis(message), Some(freq))
  }

  /** evaluate_request: parse the answer, then tune or downgrade the request. */
  method EvaluateRequest(userInput: string, answer: Result<string, string>, tune: nat -> Result<string, string>)
    returns (analysis: map<string, Value>, tunedTo: Option<nat>)
    ensures Evaluation(analysis, tunedTo) == Evaluate(userInput, answer, tune)
  {
    tunedTo := None;
    if answer.Err? {
      analysis := ErrorAnalysis(answer.error);
      return;
    }
    var parsed := ParseLlmResponse(answer.value);
    analysis := AsValues(parsed);
    if "requires_tuning" in parsed && parsed["requires_tuning"] == "true" {
      var freq := ParseFrequency(userInput);
      if freq.None? || freq.value == 0 {
        freq := ParseFrequency(GetOr(parsed, "frequency_mentioned", ""));
      }
      if freq.Some? && freq.value != 0 {
        tunedTo := freq;
        var outcome := tune(freq.value);
        if outcome.Err? {
          analysis := ErrorAnalysis(outcome.error);
          return;
        }
        analysis := analysis["tuning_result" := Text(outcome.value)];
      } else {
        analysis := analysis["requires_tuning" := Text("false")];
        analysis := analysis["needs_info" := Text(NeedFrequencyMessage)];
      }
    }
  }

  /**
   * A tuning request without a usable frequency is turned down: it becomes
   * `requires_tuning: false` with the reason in `needs_info`, every other
   * key is kept, and the tool is not called.
   */
  lemma DowngradeWithoutFrequency(userInput: string, output: string, tune: nat -> Result<string, string>)
    requires AsksForTuning(ParsedLines(ResponseLines(output)))
    requires TuningFrequency(userInput, ParsedLines(ResponseLines(output))).None?
    ensures var e := Evaluate(userInput, Ok(output), tune);
            var parsed := ParsedLines(ResponseLines(output));
            && e.tunedTo.None?
            && e.analysis.Keys == parsed.Keys + {"needs_info"}
            && e.analysis["requires_tuning"] == Text("false")
            && e.analysis["needs_info"] == Text(NeedFrequencyMessage)
            && forall k :: k in parsed && k != "requires_tuning" && k != "needs_info" ==> e.analysis[k] == Text(parsed[k])
  {
  }

  /**
   * The tool is called only for a tuning request, with a positive frequency
   * taken from the request or, failing that, from the model's answer; a
   * usable frequency in the request always wins.
   */
  lemma TunesOnlyWhenAsked(userInput: string, answer: Result<string, string>, tune: nat -> Result<string, string>)
    ensures var e := Evaluate(userInput, answer, tune);
            e.tunedTo.Some? ==>
              && answer.Ok?
              && AsksForTuning(ParsedLines(ResponseLines(answer.value)))
              && e.tunedTo.value > 0
              && (e.tunedTo == ParseFrequency(userInput)
                  || e.tunedTo == ParseFrequency(GetOr(ParsedLines(ResponseLines(answer.value)), "frequency_mentioned", "")))
    ensures var e := Evaluate(userInput, answer, tune);
            answer.Ok? && AsksForTuning(ParsedLines(ResponseLines(answer.value)))
            && ParseFrequency(userInput).Some? && ParseFrequency(userInput).value > 0 ==>
              e.tunedTo == ParseFrequency(userInput)
  {
  }

  /** A frequency of 0 in the request is treated as missing. */
  lemma ZeroIsNoFrequency(userInput: string, analysis: map<string, string>)
    requires ParseFrequency(userInput) == Some(0)
    ensures TuningFrequency(userInput, analysis).Some? <==>
              ParseFrequency(GetOr(analysis, "frequency_mentioned", "")).Some?
              && ParseFrequency(GetOr(analysis, "frequency_mentioned", "")).value > 0
  {
  }

  /** Anything but `requires_tuning: true` passes the parsed answer through untouched. */
  lemma PassThrough(userInput: string, output: string, tune: nat -> Result<string, string>)
    requires !AsksForTuning(ParsedLines(ResponseLines(output)))
    ensures Evaluate(userInput, Ok(output), tune) == Evaluation(AsValues(ParsedLines(ResponseLines(output))), None)
  {
  }
}
