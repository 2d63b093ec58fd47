/**
 The case conversions (packages/shared/src/strings.ts). Letters are the ASCII ones: the patterns match only
 those, and the strings converted are identifiers made of them.
 */
module CaseConversion {
  import opened Prelude

  predicate IsUpper(c: char) { 'A' <= c <= 'Z' }

  predicate IsLower(c: char) { 'a' <= c <= 'z' }

  predicate IsDigit(c: char) { '0' <= c <= '9' }

  predicate IsAlphanumeric(c: char) { IsUpper(c) || IsLower(c) || IsDigit(c) }

  function ToLower(c: char): char { if IsUpper(c) then c - 'A' + 'a' else c }

  function ToUpper(c: char): char { if IsLower(c) then c - 'a' + 'A' else c }

  function LowerAll(s: string): (r: string)
    ensures |r| == |s|
  {
    if |s| == 0 then [] else [ToLower(s[0])] + LowerAll(s[1..])
  }

  function UpperAll(s: string): (r: string)
    ensures |r| == |s|
  {
    if |s| == 0 then [] else [ToUpper(s[0])] + UpperAll(s[1..])
  }

  // ---------- camelCase and snake_case ----------

  /** Every upper-case letter becomes an underscore and its lower-case form. */
  function CamelToSnakeCase(s: string): string {
    if |s| == 0 then []
    else if IsUpper(s[0]) then ['_', ToLower(s[0])] + CamelToSnakeCase(s[1..])
    else [s[0]] + CamelToSnakeCase(s[1..])
  }

  /** Every underscore before a lower-case letter goes and the letter becomes upper-case; matches do not overlap. */
  function ToCamelCase(s: string): string {
    if |s| >= 2 && s[0] == '_' && IsLower(s[1]) then [ToUpper(s[1])] + ToCamelCase(s[2..])
    else if |s| == 0 then []
    else [s[0]] + ToCamelCase(s[1..])
  }

  ghost predicate NoSnakeHump(s: string) { forall i :: 0 <= i < |s| - 1 && s[i] == '_' ==> !IsLower(s[i + 1]) }

  lemma NoSnakeHumpStep(s: string)
    requires |s| > 0
    ensures NoSnakeHump(s) <==> NoSnakeHump(s[1..]) && !(|s| >= 2 && s[0] == '_' && IsLower(s[1]))
  {
    if NoSnakeHump(s[1..]) && !(|s| >= 2 && s[0] == '_' && IsLower(s[1])) {
      forall i | 0 <= i < |s| - 1 && s[i] == '_' ensures !IsLower(s[i + 1]) {
        if i > 0 { assert s[1..][i - 1] == '_'; }
      }
    }
  }

  lemma SnakeOne(c: char, t: string)
    ensures CamelToSnakeCase([c] + t) == (if IsUpper(c) then ['_', ToLower(c)] else [c]) + CamelToSnakeCase(t)
  {
    assert ([c] + t)[1..] == t;
  }

  lemma CamelHump(c: char, t: string)
    requires IsLower(c)
    ensures ToCamelCase(['_', c] + t) == [ToUpper(c)] + ToCamelCase(t)
  {
    assert (['_', c] + t)[2..] == t;
  }

  lemma CamelOne(c: char, t: string)
    requires !(c == '_' && |t| > 0 && IsLower(t[0]))
    ensures ToCamelCase([c] + t) == [c] + ToCamelCase(t)
  {
    assert ([c] + t)[1..] == t;
  }

  predicate Hump(c: char, t: string) { c == '_' && |t| > 0 && IsLower(t[0]) }

  /** There and back, the first character stays as it is unless it is the underscore of a hump, which goes. */
  lemma BackAgainOne(c: char, t: string)
    ensures var back := ToCamelCase(CamelToSnakeCase([c] + t));
            if Hump(c, t) then |back| > 0 && back[0] != '_' else back == [c] + ToCamelCase(CamelToSnakeCase(t))
  {
    SnakeOne(c, t);
    var snake := CamelToSnakeCase(t);
    if IsUpper(c) {
      CamelHump(ToLower(c), snake);
    } else {
      if |t| > 0 {
        SnakeOne(t[0], t[1..]);
        assert t == [t[0]] + t[1..];
      }
      if Hump(c, t) {
        assert ['_'] + snake == ['_', t[0]] + CamelToSnakeCase(t[1..]);
        CamelHump(t[0], CamelToSnakeCase(t[1..]));
      } else {
        CamelOne(c, snake);
      }
    }
  }

  /** MAIN RESULT. To snake case and back is the identity exactly on strings without an underscore before a lower-case letter. */
  lemma {:induction false} CamelRoundTrip(s: string)
    ensures ToCamelCase(CamelToSnakeCase(s)) == s <==> NoSnakeHump(s)
  {
    if |s| > 0 {
      var c, t := s[0], s[1..];
      assert s == [c] + t;
      NoSnakeHumpStep(s);
      BackAgainOne(c, t);
      CamelRoundTrip(t);
      if !Hump(c, t) { assert ([c] + ToCamelCase(CamelToSnakeCase(t)))[1..] == ToCamelCase(CamelToSnakeCase(t)); }
    }
  }

  // ---------- Letters ----------

  const CAPITALS := "ABCDEFGHIJKLMNOPQRSTUVWXYZ"
  const SMALLS := "abcdefghijklmnopqrstuvwxyz"

  /** The letters are the twenty-six of the alphabet; no other character has a case. */
  lemma CapitalsAreThese(c: char)
    ensures IsUpper(c) <==> c in CAPITALS
    ensures c !in CAPITALS ==> ToLower(c) == c
  {
    if IsUpper(c) { assert CAPITALS[(c - 'A') as int] == c; }
  }

  lemma SmallsAreThese(c: char)
    ensures IsLower(c) <==> c in SMALLS
    ensures c !in SMALLS ==> ToUpper(c) == c
  {
    if IsLower(c) { assert SMALLS[(c - 'a') as int] == c; }
  }

  /** They are paired in order. */
  lemma AlphabetIsPaired(i: nat)
    requires i < 26
    ensures |CAPITALS| == |SMALLS| == 26 && ToLower(CAPITALS[i]) == SMALLS[i] && ToUpper(SMALLS[i]) == CAPITALS[i]
  {
  }

  lemma AlphanumericsAreThese(c: char)
    ensures IsAlphanumeric(c) <==> c in CAPITALS || c in SMALLS || c in "0123456789"
  {
    CapitalsAreThese(c);
    SmallsAreThese(c);
    if IsDigit(c) { assert "0123456789"[(c - '0') as int] == c; }
  }

  /** Snake case has no capital letter left. */
  lemma {:induction false} SnakeHasNoCapitals(s: string)
    ensures forall i :: 0 <= i < |CamelToSnakeCase(s)| ==> !('A' <= CamelToSnakeCase(s)[i] <= 'Z')
  {
    if |s| > 0 { SnakeHasNoCapitals(s[1..]); }
  }

  // ---------- PascalCase and SCREAMING_SNAKE_CASE ----------

  predicate IsLineEnd(c: char) { c == '\n' || c == '\r' || c == '\U{2028}' || c == '\U{2029}' }

  /** An underscore goes before every upper-case letter that follows a character on its line. */
  function Inject(inside: bool, s: string): string
    decreases |s|
  {
    if |s| == 0 then []
    else (if inside && IsUpper(s[0]) then ['_', s[0]] else [s[0]]) + Inject(!IsLineEnd(s[0]), s[1..])
  }

  function PascalToScreaming(s: string): string { UpperAll(Inject(false, s)) }

  /** `split('_')`: one word more than there are underscores. */
  function Split(s: string): (words: seq<string>)
    ensures |words| > 0
  {
    if |s| == 0 then [[]]
    else if s[0] == '_' then [[]] + Split(s[1..])
    else [[s[0]] + Split(s[1..])[0]] + Split(s[1..])[1..]
  }

  /** None where the program throws: an empty word has no first letter. */
  function Capitalise(words: seq<string>): Option<string> {
    if |words| == 0 then Some([])
    else if words[0] == [] then None
    else
      var rest := Capitalise(words[1..]);
      if rest.None? then None else Some([ToUpper(words[0][0])] + LowerAll(words[0][1..]) + rest.value)
  }

  function ScreamingToPascal(s: string): Option<string> { Capitalise(Split(s)) }

  ghost predicate Alphanumeric(s: string) { forall i :: 0 <= i < |s| ==> IsAlphanumeric(s[i]) }

  ghost predicate WordCharacters(s: string) { forall i :: 0 <= i < |s| ==> IsAlphanumeric(s[i]) || s[i] == '_' }

  /** The same conversion, one character at a time; `start` says that a word begins here. */
  function Scan(start: bool, s: string): Option<string>
    decreases |s|
  {
    if |s| == 0 then (if start then None else Some([]))
    else if s[0] == '_' then (if start then None else Scan(true, s[1..]))
    else
      var rest := Scan(false, s[1..]);
      if rest.None? then None else Some([if start then ToUpper(s[0]) else ToLower(s[0])] + rest.value)
  }

  /** The words after the first capitalised, the first one only in lower case: what is left of a word already begun. */
  function Continued(words: seq<string>): Option<string>
    requires |words| > 0
  {
    var rest := Capitalise(words[1..]);
    if rest.None? then None else Some(LowerAll(words[0]) + rest.value)
  }

  lemma LongerFirstWord(c: char, words: seq<string>)
    requires |words| > 0
    ensures var longer := [[c] + words[0]] + words[1..];
            && (Continued(words).None? ==> Capitalise(longer).None? && Continued(longer).None?)
            && (Continued(words).Some? ==> Capitalise(longer) == Some([ToUpper(c)] + Continued(words).value))
            && (Continued(words).Some? ==> Continued(longer) == Some([ToLower(c)] + Continued(words).value))
  {
    var longer := [[c] + words[0]] + words[1..];
    assert longer[1..] == words[1..] && longer[0][1..] == words[0];
    if Continued(words).Some? {
      var rest := Capitalise(words[1..]).value;
      assert [ToUpper(c)] + LowerAll(words[0]) + rest == [ToUpper(c)] + (LowerAll(words[0]) + rest);
      assert [ToLower(c)] + LowerAll(words[0]) + rest == [ToLower(c)] + (LowerAll(words[0]) + rest);
    }
  }

  lemma EmptyFirstWord(words: seq<string>)
    ensures Capitalise([[]] + words).None? && Continued([[]] + words) == Capitalise(words)
  {
    assert ([[]] + words)[1..] == words;
    var rest := Capitalise(words);
    if rest.Some? { assert LowerAll([]) + rest.value == rest.value; }
  }

  lemma {:induction false} ScanIsConversion(s: string)
    ensures Scan(true, s) == ScreamingToPascal(s) && Scan(false, s) == Continued(Split(s))
  {
    if |s| == 0 {
      var none: seq<string> := [];
      assert Split(s) == [[]] + none;
      EmptyFirstWord(none);
    } else {
      ScanIsConversion(s[1..]);
      if s[0] == '_' { EmptyFirstWord(Split(s[1..])); } else { LongerFirstWord(s[0], Split(s[1..])); }
    }
  }

  lemma ScanUnderscore(t: string)
    ensures Scan(false, ['_'] + t) == Scan(true, t)
  {
    assert (['_'] + t)[1..] == t;
  }

  lemma ScanOne(start: bool, c: char, t: string)
    requires c != '_' && Scan(false, t).Some?
    ensures Scan(start, [c] + t) == Some([if start then ToUpper(c) else ToLower(c)] + Scan(false, t).value)
  {
    assert ([c] + t)[1..] == t;
  }

  /** Inside a word the way to SCREAMING and back changes nothing. */
  lemma {:induction false} ScanUndoesInject(s: string)
    requires Alphanumeric(s)
    ensures Scan(false, UpperAll(Inject(true, s))) == Some(s)
  {
    if |s| > 0 {
      var c, t := s[0], s[1..];
      assert s == [c] + t && Alphanumeric(t) && IsAlphanumeric(c);
      ScanUndoesInject(t);
      InjectOne(c, t);
      var rest := UpperAll(Inject(true, t));
      if IsUpper(c) {
        assert ['_', c] + rest == ['_'] + ([c] + rest);
        ScanUnderscore([c] + rest);
        ScanOne(true, c, rest);
      } else {
        ScanOne(false, ToUpper(c), rest);
      }
    }
  }

  lemma UpperOfTwo(c: char, d: char, rest: string)
    ensures UpperAll([c, d] + rest) == [ToUpper(c), ToUpper(d)] + UpperAll(rest)
  {
    assert ([c, d] + rest)[1..] == [d] + rest;
    assert ([d] + rest)[1..] == rest;
  }

  lemma HeadOfScreaming(s: string)
    requires Alphanumeric(s) && |s| > 0
    ensures PascalToScreaming(s) == [ToUpper(s[0])] + UpperAll(Inject(true, s[1..]))
  {
    assert IsAlphanumeric(s[0]);
    var rest := Inject(true, s[1..]);
    assert Inject(false, s) == [s[0]] + rest;
    assert ([s[0]] + rest)[1..] == rest;
  }

  /**
   MAIN RESULT. An alphanumeric name comes back from SCREAMING_SNAKE_CASE exactly when it is not empty and does
   not begin with a lower-case letter.
   */
  lemma PascalRoundTrip(s: string)
    requires Alphanumeric(s)
    ensures ScreamingToPascal(PascalToScreaming(s)) == Some(s) <==> |s| > 0 && !IsLower(s[0])
  {
    ScanIsConversion(PascalToScreaming(s));
    if |s| > 0 {
      HeadOfScreaming(s);
      assert Alphanumeric(s[1..]) && IsAlphanumeric(s[0]);
      ScanUndoesInject(s[1..]);
      var back := [ToUpper(s[0])] + s[1..];
      assert ([ToUpper(s[0])] + UpperAll(Inject(true, s[1..])))[1..] == UpperAll(Inject(true, s[1..]));
      assert ScreamingToPascal(PascalToScreaming(s)) == Some(back);
      assert back[0] == ToUpper(s[0]) && s == [s[0]] + s[1..];
    }
  }

  lemma {:induction false} UpperAllAppends(s: string, t: string)
    ensures UpperAll(s + t) == UpperAll(s) + UpperAll(t)
  {
    if |s| == 0 {
      assert s + t == t;
    } else {
      assert (s + t)[1..] == s[1..] + t;
      UpperAllAppends(s[1..], t);
    }
  }

  lemma {:induction false} InjectAppends(inside: bool, s: string, t: string)
    requires |s| > 0
    ensures Inject(inside, s + t) == Inject(inside, s) + Inject(!IsLineEnd(s[|s| - 1]), t)
    decreases |s|
  {
    var c, r := s[0], s[1..];
    var head := if inside && IsUpper(c) then ['_', c] else [c];
    assert s == [c] + r;
    InjectFirst(inside, c, r);
    if |r| > 0 {
      InjectAppends(!IsLineEnd(c), r, t);
      Regroup([c], r, t);
      InjectFirst(inside, c, r + t);
      Regroup(head, Inject(!IsLineEnd(c), r), Inject(!IsLineEnd(r[|r| - 1]), t));
    } else {
      InjectFirst(inside, c, t);
      assert s + t == [c] + t && head + [] == head;
    }
  }

  lemma Regroup(a: string, b: string, c: string)
    ensures (a + b) + c == a + (b + c)
  {
  }

  lemma InjectFirst(inside: bool, c: char, t: string)
    ensures Inject(inside, [c] + t) == (if inside && IsUpper(c) then ['_', c] else [c]) + Inject(!IsLineEnd(c), t)
  {
    assert ([c] + t)[1..] == t;
  }

  function Between(c: char, d: char): string
    ensures UpperAll(Between(c, d)) == Between(c, d)
  {
    if IsUpper(d) && c !in {'\n', '\r', '\U{2028}', '\U{2029}'} then "_" else ""
  }

  lemma InjectBetween(c: char, t: string)
    requires |t| > 0
    ensures Inject(!IsLineEnd(c), t) == Between(c, t[0]) + Inject(false, t)
  {
  }

  /** A name may be converted in two parts: an underscore goes between them before a capital that does not begin a line. */
  lemma ConvertsInParts(s: string, t: string)
    requires |s| > 0 && |t| > 0
    ensures PascalToScreaming(s + t) ==
            PascalToScreaming(s) + (if 'A' <= t[0] <= 'Z' && s[|s| - 1] !in {'\n', '\r', '\U{2028}', '\U{2029}'} then "_" else "")
            + PascalToScreaming(t)
  {
    var last := s[|s| - 1];
    InjectAppends(false, s, t);
    InjectBetween(last, t);
    UpperAllAppends(Inject(false, s), Inject(!IsLineEnd(last), t));
    UpperAllAppends(Between(last, t[0]), Inject(false, t));
  }

  lemma OneIsUpper(c: char)
    ensures PascalToScreaming([c]) == [ToUpper(c)]
  {
    assert Inject(false, [c]) == [c];
  }

  /** SCREAMING_SNAKE_CASE: no lower-case letter, no empty word, and every word after the first begins with a letter. */
  ghost predicate Screaming(s: string) {
    && |s| > 0 && s[0] != '_' && Continues(s)
  }

  ghost predicate Continues(s: string) {
    && (forall i :: 0 <= i < |s| ==> !IsLower(s[i]))
    && (forall i :: 0 <= i < |s| && s[i] == '_' ==> i + 1 < |s| && IsUpper(s[i + 1]))
  }

  lemma ContinuesStep(s: string)
    requires |s| > 0
    ensures Continues(s) <==> !IsLower(s[0]) && Continues(s[1..]) && (s[0] == '_' ==> |s| > 1 && IsUpper(s[1]))
  {
    if Continues(s[1..]) && !IsLower(s[0]) && (s[0] == '_' ==> |s| > 1 && IsUpper(s[1])) {
      forall i | 0 <= i < |s| ensures !IsLower(s[i]) && (s[i] == '_' ==> i + 1 < |s| && IsUpper(s[i + 1])) {
        if i > 0 { assert s[i] == s[1..][i - 1]; }
      }
    }
    if Continues(s) { assert forall i :: 0 <= i < |s| - 1 ==> s[1..][i] == s[i + 1]; }
  }

  /** From Pascal's letters back to a piece of SCREAMING: the piece is what its conversion turns into. */
  ghost predicate ComesBack(s: string) { Scan(false, s).Some? && UpperAll(Inject(true, Scan(false, s).value)) == s }

  /** An underscore begins a word; its capital brings the underscore back. */
  lemma WordStartComesBack(c: char, t: string)
    requires IsUpper(c) && ComesBack(t)
    ensures ComesBack(['_', c] + t)
  {
    var p := Scan(false, t).value;
    assert Scan(false, ['_', c] + t) == Some([c] + p) by {
      assert ['_', c] + t == ['_'] + ([c] + t);
      ScanUnderscore([c] + t);
      ScanOne(true, c, t);
    }
    InjectOne(c, p);
  }

  lemma LetterComesBack(c: char, t: string)
    requires IsAlphanumeric(c) && !IsLower(c) && ComesBack(t)
    ensures ComesBack([c] + t)
  {
    ScanOne(false, c, t);
    InjectOne(ToLower(c), Scan(false, t).value);
  }

  /** Inside a word the way to Pascal and back changes nothing. */
  lemma {:induction false} InjectUndoesScan(s: string)
    requires WordCharacters(s) && Continues(s)
    ensures ComesBack(s)
    decreases |s|
  {
    if |s| > 0 {
      ContinuesStep(s);
      assert IsAlphanumeric(s[0]) || s[0] == '_';
      if s[0] == '_' {
        ContinuesStep(s[1..]);
        assert s[1..][1..] == s[2..] && s == ['_', s[1]] + s[2..];
        InjectUndoesScan(s[2..]);
        WordStartComesBack(s[1], s[2..]);
      } else {
        assert s == [s[0]] + s[1..];
        InjectUndoesScan(s[1..]);
        LetterComesBack(s[0], s[1..]);
      }
    }
  }

  lemma InjectOne(c: char, p: string)
    requires IsAlphanumeric(c)
    ensures UpperAll(Inject(true, [c] + p)) ==
            (if IsUpper(c) then ['_', c] else [ToUpper(c)]) + UpperAll(Inject(true, p))
  {
    assert ([c] + p)[1..] == p;
    var rest := Inject(true, p);
    if IsUpper(c) {
      UpperOfTwo('_', c, rest);
    } else {
      assert ([c] + rest)[1..] == rest;
    }
  }

  /** What comes out of the conversion has letters and digits only. */
  lemma {:induction false} ScanIsAlphanumeric(start: bool, s: string)
    requires WordCharacters(s) && Scan(start, s).Some?
    ensures Alphanumeric(Scan(start, s).value) && (start ==> |Scan(start, s).value| > 0)
    decreases |s|
  {
    if |s| > 0 {
      assert WordCharacters(s[1..]);
      assert IsAlphanumeric(s[0]) || s[0] == '_';
      ScanIsAlphanumeric(s[0] == '_', s[1..]);
    }
  }

  lemma {:induction false} InjectContinues(p: string)
    requires Alphanumeric(p)
    ensures Continues(UpperAll(Inject(true, p)))
  {
    if |p| > 0 {
      assert Alphanumeric(p[1..]) && IsAlphanumeric(p[0]);
      InjectContinues(p[1..]);
      InjectOne(p[0], p[1..]);
      assert p == [p[0]] + p[1..];
      var rest := UpperAll(Inject(true, p[1..]));
      var head := [ToUpper(p[0])] + rest;
      assert head[1..] == rest;
      ContinuesStep(head);
      if IsUpper(p[0]) {
        assert (['_'] + head)[1..] == head && ['_', p[0]] + rest == ['_'] + head;
        ContinuesStep(['_'] + head);
      }
    }
  }

  /** Whatever alphanumeric name is converted, the result is in SCREAMING_SNAKE_CASE. */
  lemma ScreamingShape(p: string)
    requires Alphanumeric(p) && |p| > 0
    ensures Screaming(PascalToScreaming(p))
  {
    HeadOfScreaming(p);
    assert Alphanumeric(p[1..]) && IsAlphanumeric(p[0]);
    InjectContinues(p[1..]);
    var rest := UpperAll(Inject(true, p[1..]));
    assert ([ToUpper(p[0])] + rest)[1..] == rest;
    ContinuesStep([ToUpper(p[0])] + rest);
  }

  /** MAIN RESULT. A string of letters, digits and underscores comes back from PascalCase exactly when it is in SCREAMING_SNAKE_CASE. */
  lemma ScreamingRoundTrip(s: string)
    requires WordCharacters(s)
    ensures (ScreamingToPascal(s).Some? && PascalToScreaming(ScreamingToPascal(s).value) == s) <==> Screaming(s)
  {
    ScanIsConversion(s);
    if ScreamingToPascal(s).Some? {
      ScanIsAlphanumeric(true, s);
      ScreamingShape(ScreamingToPascal(s).value);
    }
    if Screaming(s) {
      ContinuesStep(s);
      assert WordCharacters(s[1..]) && IsAlphanumeric(s[0]);
      InjectUndoesScan(s[1..]);
      var p := Scan(false, s[1..]).value;
      assert Scan(true, s) == Some([ToUpper(s[0])] + p);
      ScanIsAlphanumeric(true, s);
      HeadOfScreaming([ToUpper(s[0])] + p);
      assert ([ToUpper(s[0])] + p)[1..] == p;
      assert s == [s[0]] + s[1..];
    }
  }
}
