/**
 The environment variable named after a place in a configuration: what becomes of the letters, digits
 and other characters of the keys and indices on the way to it.
 */
module SecretNames {
  import opened ServiceCredentials

  predicate AllAlnum(s: string) { forall i :: 0 <= i < |s| ==> Alnum(s[i]) }

  predicate NoAlnum(s: string) { forall i :: 0 <= i < |s| ==> !Alnum(s[i]) }

  /** Letters and digits are kept. */
  lemma {:induction false} CollapseWord(word: string, afterRun: bool)
    requires AllAlnum(word)
    ensures Collapse(word, afterRun) == word
  {
    hide Alnum;
    if word != [] {
      CollapseWord(word[1..], false);
      assert [word[0]] + word[1..] == word;
    }
  }

  /** Each run of other characters between them is one underscore. */
  lemma {:induction false} CollapseRun(word: string, gap: string, rest: string, afterRun: bool)
    requires AllAlnum(word) && word != [] && NoAlnum(gap) && gap != []
    ensures Collapse(word + gap + rest, afterRun) == word + "_" + Collapse(rest, true)
  {
    hide Alnum;
    var tail := word[1..] + gap + rest;
    assert (word + gap + rest)[1..] == tail;
    if |word| == 1 {
      assert tail == gap + rest;
      CollapseGap(gap, rest, false);
    } else {
      CollapseRun(word[1..], gap, rest, false);
      assert [word[0]] + (word[1..] + "_" + Collapse(rest, true)) == word + "_" + Collapse(rest, true);
    }
  }

  lemma {:induction false} CollapseGap(gap: string, rest: string, afterRun: bool)
    requires NoAlnum(gap) && gap != []
    ensures Collapse(gap + rest, afterRun) == (if afterRun then [] else "_") + Collapse(rest, true)
    decreases |gap|
  {
    assert (gap + rest)[1..] == gap[1..] + rest;
    if |gap| > 1 {
      CollapseGap(gap[1..], rest, true);
      assert [] + Collapse(rest, true) == Collapse(rest, true);
    } else {
      assert gap[1..] + rest == rest;
    }
  }

  /** Underscores are taken off both ends of a part, and nothing else. */
  lemma {:induction false} StripUnderscoresExact(s: string) returns (from: nat, to: nat)
    ensures from <= to <= |s| && StripUnderscores(s) == s[from..to]
    ensures forall i :: 0 <= i < from || to <= i < |s| ==> s[i] == '_'
    ensures from < to ==> s[from] != '_' && s[to - 1] != '_'
    decreases |s|
  {
    from, to := 0, |s|;
    if s != [] && s[0] == '_' {
      var f, t := StripUnderscoresExact(s[1..]);
      from, to := f + 1, t + 1;
      WithoutFirst(s, f, t);
    } else if s != [] && s[|s| - 1] == '_' {
      from, to := StripUnderscoresExact(s[..|s| - 1]);
    }
  }

  lemma WithoutFirst(s: string, f: nat, t: nat)
    requires s != [] && s[0] == '_' && f <= t < |s|
    requires forall i :: 0 <= i < f || t <= i < |s| - 1 ==> s[1..][i] == '_'
    requires f < t ==> s[1..][f] != '_' && s[1..][t - 1] != '_'
    ensures s[1..][f..t] == s[f + 1..t + 1]
    ensures forall i :: 0 <= i < f + 1 || t + 1 <= i < |s| ==> s[i] == '_'
    ensures f < t ==> s[f + 1] != '_' && s[t] != '_'
  {
    forall i | 0 < i < |s| && (i < f + 1 || t + 1 <= i) ensures s[i] == '_' {
      assert s[1..][i - 1] == '_';
    }
  }

  lemma PartKept(part: string)
    requires AllAlnum(part) && part != []
    ensures StripUnderscores(Collapse(part, false)) == part
  {
    CollapseWord(part, false);
    assert Alnum(part[0]) && Alnum(part[|part| - 1]);
  }

  /** A part of letters and digits goes into the name as it is, in capitals, after an underscore. */
  lemma NameOfPart(path: Path, part: string)
    requires AllAlnum(part) && part != [] && path != []
    ensures EnvironmentName([part]) == "HERMES_CONFIG_" + UpperText(part)
    ensures EnvironmentName(path + [part]) == EnvironmentName(path) + "_" + UpperText(part)
  {
    hide Collapse, StripUnderscores, ToUpper;
    PartKept(part);
    var longer := path + [part];
    assert longer[..|longer| - 1] == path;
    assert JoinParts(longer) == JoinParts(path) + "_" + part;
    UpperUnderscore(JoinParts(path), part);
  }

  lemma UpperUnderscore(a: string, b: string)
    ensures UpperText(a + "_" + b) == UpperText(a) + "_" + UpperText(b)
  {
  }

  /** Only the case of ASCII letters changes, between the two alphabets. */
  lemma CaseExact(c: char)
    ensures 'a' <= c <= 'z' ==> (ToUpper(c) as int) - ('A' as int) == (c as int) - ('a' as int)
    ensures 'A' <= c <= 'Z' ==> (ToLower(c) as int) - ('a' as int) == (c as int) - ('A' as int)
    ensures !('a' <= c <= 'z') ==> ToUpper(c) == c
    ensures !('A' <= c <= 'Z') ==> ToLower(c) == c
  {
  }

  /** The number a text of digits stands for. */
  function Value(s: string): int {
    if s == [] then 0 else 10 * Value(s[..|s| - 1]) + (s[|s| - 1] as int - '0' as int)
  }

  /** An index is written in decimal digits, without leading zeros. */
  lemma {:induction false} DecimalExact(n: nat)
    ensures Value(Decimal(n)) == n && Decimal(n) != []
    ensures forall i :: 0 <= i < |Decimal(n)| ==> '0' <= Decimal(n)[i] <= '9'
    ensures Decimal(n)[0] == '0' ==> n == 0
  {
    if n < 10 {
      assert Decimal(n)[..0] == [];
    } else {
      DecimalExact(n / 10);
      var s := Decimal(n);
      assert s[..|s| - 1] == Decimal(n / 10);
    }
  }
}
