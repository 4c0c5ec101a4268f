/**
 * `generateProductCode(categoryName, existingCodes)`: a product code made of
 * a two-letter prefix taken from the category name and a three-digit
 * sequence number, or `XX001` when the name has fewer than two ASCII letters.
 */
module ProductCode {
  import opened Wrappers
  import opened JsString
  import opened JsNumber

  /** The ASCII letters of `s`, in order: `s.split('').filter(c => /[a-zA-Z]/.test(c))`. */
  function Letters(s: string): (r: string)
    ensures |r| <= |s|
    ensures forall i :: 0 <= i < |r| ==> IsAsciiLetter(r[i])
  {
    if s == [] then [] else (if IsAsciiLetter(s[0]) then [s[0]] else []) + Letters(s[1..])
  }

  lemma {:induction false} LettersAppend(a: string, b: string)
    ensures Letters(a + b) == Letters(a) + Letters(b)
  {
    if a == [] {
      assert a + b == b;
    } else {
      assert (a + b)[1..] == a[1..] + b;
      LettersAppend(a[1..], b);
    }
  }

  lemma {:induction false} LettersOfNonLetters(s: string)
    requires forall i :: 0 <= i < |s| ==> !IsAsciiLetter(s[i])
    ensures Letters(s) == []
  {
    if s != [] {
      LettersOfNonLetters(s[1..]);
    }
  }

  lemma LettersOfTrimStart(s: string)
    ensures Letters(TrimStart(s)) == Letters(s)
  {
    var t := TrimStart(s);
    var head := s[..|s| - |t|];
    assert s == head + t;
    LettersAppend(head, t);
    LettersOfNonLetters(head);
  }

  lemma LettersOfTrimEnd(s: string)
    ensures Letters(TrimEnd(s)) == Letters(s)
  {
    var u := TrimEnd(s);
    var tail := s[|u|..];
    assert s == u + tail;
    LettersAppend(u, tail);
    LettersOfNonLetters(tail);
  }

  /** Trimming only removes whitespace, which is never a letter. */
  lemma LettersOfTrim(s: string)
    ensures Letters(Trim(s)) == Letters(s)
  {
    LettersOfTrimStart(s);
    LettersOfTrimEnd(TrimStart(s));
  }

  /** When `s[i]` is the first letter of `s`, the letters are `s[i]` and those after it. */
  lemma LettersFromFirstLetter(s: string, i: nat)
    requires i < |s| && IsAsciiLetter(s[i])
    requires forall k :: 0 <= k < i ==> !IsAsciiLetter(s[k])
    ensures Letters(s) == [s[i]] + Letters(s[i + 1..])
  {
    var head, t := s[..i], s[i..];
    assert s == head + t;
    LettersAppend(head, t);
    LettersOfNonLetters(head);
    assert t[0] == s[i] && t[1..] == s[i + 1..];
    assert Letters(t) == [s[i]] + Letters(s[i + 1..]);
  }

  /**
   * The prefix: the first two letters of the trimmed name, upper-cased
   * (`.slice(0, 2).join('').toUpperCase()`); shorter when there are fewer.
   */
  function Prefix(categoryName: string): (p: string)
    ensures |p| == if |Letters(categoryName)| < 2 then |Letters(categoryName)| else 2
    ensures forall i :: 0 <= i < |p| ==>
      IsAsciiUpper(p[i]) && p[i] == ToUpperAscii(Letters(categoryName)[i])
  {
    var letters := Letters(Trim(categoryName));
    LettersOfTrim(categoryName);
    UpperCase(if |letters| < 2 then letters else letters[..2])
  }

  /**
   * One element of the source's `map` over `existingCodes`: the code is
   * rendered, padded to six characters with `'0'`, and if it starts with the
   * prefix its text after the first two characters is parsed.
   */
  function MatchCode(prefix: string, code: int): (r: Option<int>)
    ensures r.Some? ==> StartsWith(PadStart(IntToString(code), 6, '0'), prefix)
  {
    var codeStr := PadStart(IntToString(code), 6, '0');
    if StartsWith(codeStr, prefix) then ParseInt(codeStr[2..]) else None
  }

  /**
   * `prefixCodes`: the numbers taken from the existing codes that match the
   * prefix, in order, with the `null`s filtered out.
   */
  function Matched(prefix: string, codes: seq<int>): (r: seq<int>)
    ensures |r| <= |codes|
  {
    if codes == [] then []
    else (match MatchCode(prefix, codes[0]) case Some(v) => [v] case None => []) + Matched(prefix, codes[1..])
  }

  lemma {:induction false} MatchedMembers(prefix: string, codes: seq<int>)
    ensures forall v :: v in Matched(prefix, codes) <==> exists c :: c in codes && MatchCode(prefix, c) == Some(v)
  {
    if codes != [] {
      var rest := codes[1..];
      MatchedMembers(prefix, rest);
      assert codes == [codes[0]] + rest;
      forall v
        ensures v in Matched(prefix, codes) <==> exists c :: c in codes && MatchCode(prefix, c) == Some(v)
      {
        if MatchCode(prefix, codes[0]) == Some(v) {
          assert codes[0] in codes;
        }
        if exists c :: c in rest && MatchCode(prefix, c) == Some(v) {
          var c :| c in rest && MatchCode(prefix, c) == Some(v);
          assert c in codes;
        }
      }
    }
  }

  /** The next sequence number: one more than the largest matched number, or 1. */
  function NextSeq(matched: seq<int>): (n: int)
    ensures matched == [] ==> n == 1
    ensures forall x :: x in matched ==> x < n
    ensures matched != [] ==> n - 1 in matched
  {
    if |matched| > 0 then SeqMax(matched) + 1 else 1
  }

  /** The template `${prefix}${nextSeq.toString().padStart(3, '0')}`. */
  function Assemble(prefix: string, nextSeq: int): (r: string)
    ensures |r| >= |prefix| + 3 && r[..|prefix|] == prefix
  {
    prefix + PadStart(IntToString(nextSeq), 3, '0')
  }

  /**
   * `generateProductCode`. It has no precondition: it yields a code for
   * every name and every list of integer codes.
   */
  function GenerateProductCode(categoryName: string, existingCodes: seq<int>): (r: string)
    ensures |r| >= 5
    ensures |Letters(categoryName)| >= 2 ==> r[..2] == Prefix(categoryName)
  {
    var prefix := Prefix(categoryName);
    if |prefix| < 2 then "XX001"
    else Assemble(prefix, NextSeq(Matched(prefix, existingCodes)))
  }

  /**
   * `Infinity.toString()` is `"Infinity"`, whose second character is lower
   * case, so it never starts with an upper-case two-letter prefix either.
   * Existing codes are integers in this model, so no member uses this lemma;
   * it backs the note on non-integer renderings, which are left out.
   */
  lemma InfinityNeverMatches(prefix: string)
    requires |prefix| == 2 && IsAsciiUpper(prefix[1])
    ensures !StartsWith(PadStart("Infinity", 6, '0'), prefix)
  {
    assert PadStart("Infinity", 6, '0') == "Infinity";
    assert "Infinity"[..2][1] == 'n';
  }

  /**
   * The decimal rendering of an integer, padded with `'0'`, begins with a
   * digit or `-`, so it never starts with a prefix that begins with a letter.
   */
  lemma NoCodeMatchesLetterPrefix(prefix: string, code: int)
    requires |prefix| >= 1 && IsAsciiLetter(prefix[0])
    ensures MatchCode(prefix, code) == None
  {
    var s := IntToString(code);
    var codeStr := PadStart(s, 6, '0');
    assert codeStr[0] == '0' || codeStr[0] == s[0];
    assert codeStr[0] != prefix[0];
    assert !StartsWith(codeStr, prefix) by {
      if |prefix| <= |codeStr| {
        assert codeStr[..|prefix|][0] == codeStr[0];
      }
    }
  }

  lemma {:induction false} NothingMatchesLetterPrefix(prefix: string, codes: seq<int>)
    requires |prefix| >= 1 && IsAsciiLetter(prefix[0])
    ensures Matched(prefix, codes) == []
  {
    if codes != [] {
      NoCodeMatchesLetterPrefix(prefix, codes[0]);
      NothingMatchesLetterPrefix(prefix, codes[1..]);
    }
  }

  /** A name with fewer than two ASCII letters gives `XX001`, whatever the existing codes. */
  lemma GenerateFallback(categoryName: string, existingCodes: seq<int>)
    requires |Letters(categoryName)| < 2
    ensures GenerateProductCode(categoryName, existingCodes) == "XX001"
  {
    assert |Prefix(categoryName)| < 2;
  }

  /** With nothing matched, the sequence part of the code is `001`. */
  lemma FirstSequenceNumber()
    ensures PadStart(IntToString(NextSeq([])), 3, '0') == "001"
  {
    assert IntToString(1) == "1";
    assert PadStart("1", 3, '0') == "001";
  }

  /** With at least two letters the sequence number is always 1: the result is the prefix and `001`. */
  lemma GenerateIsAlwaysFirstInSequence(categoryName: string, existingCodes: seq<int>)
    requires |Letters(categoryName)| >= 2
    ensures GenerateProductCode(categoryName, existingCodes) == Prefix(categoryName) + "001"
  {
    var prefix := Prefix(categoryName);
    NothingMatchesLetterPrefix(prefix, existingCodes);
    FirstSequenceNumber();
  }

  predicate WellShaped(code: string) {
    |code| == 5 && IsAsciiUpper(code[0]) && IsAsciiUpper(code[1])
    && IsDigit(code[2]) && IsDigit(code[3]) && IsDigit(code[4])
  }

  lemma FallbackWellShaped()
    ensures WellShaped("XX001")
  {
  }

  lemma FirstCodeWellShaped(prefix: string)
    requires |prefix| == 2 && IsAsciiUpper(prefix[0]) && IsAsciiUpper(prefix[1])
    ensures WellShaped(prefix + "001")
  {
    var r := prefix + "001";
    assert r[0] == prefix[0] && r[1] == prefix[1];
    assert r[2] == '0' && r[3] == '0' && r[4] == '1';
  }

  /** Every result is two upper-case letters followed by three digits. */
  lemma GenerateShape(categoryName: string, existingCodes: seq<int>)
    ensures WellShaped(GenerateProductCode(categoryName, existingCodes))
  {
    var prefix := Prefix(categoryName);
    if |Letters(categoryName)| >= 2 {
      GenerateIsAlwaysFirstInSequence(categoryName, existingCodes);
      FirstCodeWellShaped(prefix);
    } else {
      GenerateFallback(categoryName, existingCodes);
      FallbackWellShaped();
    }
  }

  /** The existing codes never influence the result. */
  lemma GenerateIgnoresExistingCodes(categoryName: string, a: seq<int>, b: seq<int>)
    ensures GenerateProductCode(categoryName, a) == GenerateProductCode(categoryName, b)
  {
    if |Letters(categoryName)| >= 2 {
      GenerateIsAlwaysFirstInSequence(categoryName, a);
      GenerateIsAlwaysFirstInSequence(categoryName, b);
    } else {
      GenerateFallback(categoryName, a);
      GenerateFallback(categoryName, b);
    }
  }

  /** `Math.max` ignores order and repetition: the next number depends only on the set matched. */
  lemma NextSeqDependsOnlyOnSet(m1: seq<int>, m2: seq<int>)
    requires forall x :: x in m1 <==> x in m2
    ensures NextSeq(m1) == NextSeq(m2)
  {
    if m1 != [] {
      var x := m1[0];
      assert x in m1;
    }
    if m2 != [] {
      var y := m2[0];
      assert y in m2;
    }
  }

  /** Reordering or repeating existing codes does not change which numbers match. */
  lemma MatchedDependsOnlyOnSet(prefix: string, a: seq<int>, b: seq<int>)
    requires forall c :: c in a <==> c in b
    ensures forall x :: x in Matched(prefix, a) <==> x in Matched(prefix, b)
  {
    MatchedMembers(prefix, a);
    MatchedMembers(prefix, b);
  }

  /**
   * The result depends on the existing codes only through the set of
   * numbers matched; this holds without knowing that nothing ever matches.
   */
  lemma GenerateDependsOnlyOnMatchedSet(categoryName: string, a: seq<int>, b: seq<int>)
    requires var prefix := Prefix(categoryName);
      forall x :: x in Matched(prefix, a) <==> x in Matched(prefix, b)
    ensures GenerateProductCode(categoryName, a) == GenerateProductCode(categoryName, b)
  {
    var prefix := Prefix(categoryName);
    NextSeqDependsOnlyOnSet(Matched(prefix, a), Matched(prefix, b));
  }

  /** Reordering or duplicating entries of `existingCodes` does not change the result. */
  lemma GenerateIgnoresOrderAndDuplicates(categoryName: string, a: seq<int>, b: seq<int>)
    requires forall c :: c in a <==> c in b
    ensures GenerateProductCode(categoryName, a) == GenerateProductCode(categoryName, b)
  {
    MatchedDependsOnlyOnSet(Prefix(categoryName), a, b);
    GenerateDependsOnlyOnMatchedSet(categoryName, a, b);
  }

  /** The name matters only through its sequence of ASCII letters. */
  lemma GenerateDependsOnlyOnLetters(n1: string, n2: string, existingCodes: seq<int>)
    requires Letters(n1) == Letters(n2)
    ensures GenerateProductCode(n1, existingCodes) == GenerateProductCode(n2, existingCodes)
  {
    var p1, p2 := Prefix(n1), Prefix(n2);
    assert |p1| == |p2|;
    forall i | 0 <= i < |p1|
      ensures p1[i] == p2[i]
    {
    }
    assert p1 == p2;
  }

  lemma LettersSkipNonLetter(a: string, c: char, b: string)
    requires !IsAsciiLetter(c)
    ensures Letters(a + [c] + b) == Letters(a + b)
  {
    LettersAppend(a + [c], b);
    LettersAppend(a, [c]);
    LettersAppend(a, b);
    LettersOfNonLetters([c]);
    assert Letters(a + [c]) == Letters(a);
  }

  /** Inserting a character that is not an ASCII letter anywhere in the name has no effect. */
  lemma NonLetterHasNoEffect(a: string, c: char, b: string, existingCodes: seq<int>)
    requires !IsAsciiLetter(c)
    ensures GenerateProductCode(a + [c] + b, existingCodes) == GenerateProductCode(a + b, existingCodes)
  {
    LettersSkipNonLetter(a, c, b);
    GenerateDependsOnlyOnLetters(a + [c] + b, a + b, existingCodes);
  }

  /** Spells out a two-letter prefix followed by the first sequence number. */
  lemma SpellFirstCode(prefix: string, a: char, b: char)
    requires |prefix| == 2 && prefix[0] == a && prefix[1] == b
    ensures prefix + "001" == [a, b, '0', '0', '1']
  {
  }

  lemma FirstTwoLetters(s: string, i: nat, j: nat)
    requires i < j < |s| && IsAsciiLetter(s[i]) && IsAsciiLetter(s[j])
    requires forall k :: 0 <= k < j && k != i ==> !IsAsciiLetter(s[k])
    ensures |Letters(s)| >= 2 && Letters(s)[0] == s[i] && Letters(s)[1] == s[j]
  {
    LettersFromFirstLetter(s, i);
    var t := s[i + 1..];
    assert t[j - i - 1] == s[j];
    LettersFromFirstLetter(t, j - i - 1);
  }

  /**
   * Reference characterisation of the prefix: when `s[i]` and `s[j]` are the
   * first two ASCII letters of the name, the code is their upper-case forms
   * followed by `001`.
   */
  lemma GenerateUsesFirstTwoLetters(s: string, i: nat, j: nat, existingCodes: seq<int>)
    requires i < j < |s| && IsAsciiLetter(s[i]) && IsAsciiLetter(s[j])
    requires forall k :: 0 <= k < j && k != i ==> !IsAsciiLetter(s[k])
    ensures GenerateProductCode(s, existingCodes) == [ToUpperAscii(s[i]), ToUpperAscii(s[j]), '0', '0', '1']
  {
    FirstTwoLetters(s, i, j);
    GenerateIsAlwaysFirstInSequence(s, existingCodes);
    SpellFirstCode(Prefix(s), ToUpperAscii(s[i]), ToUpperAscii(s[j]));
  }

  // Corrected generator: matches previously generated code strings.

  /**
   * A previously generated code for `prefix`: the prefix followed by a
   * non-empty run of digits, read as its sequence number.
   */
  function MatchGenerated(prefix: string, code: string): (v: Option<int>)
    ensures v.Some? ==> v.value >= 0 && StartsWith(code, prefix) && |code| > |prefix|
  {
    if StartsWith(code, prefix) && |code| > |prefix| && AllDigits(code[|prefix|..])
    then Some(DigitsValue(code[|prefix|..]))
    else None
  }

  /** The sequence numbers of the existing codes of `prefix`, in order. */
  function MatchedGenerated(prefix: string, codes: seq<string>): (r: seq<int>)
    ensures |r| <= |codes|
    ensures forall v :: v in r ==> v >= 0
  {
    if codes == [] then []
    else
      (match MatchGenerated(prefix, codes[0]) case Some(v) => [v] case None => [])
      + MatchedGenerated(prefix, codes[1..])
  }

  lemma {:induction false} MatchedGeneratedMembers(prefix: string, codes: seq<string>)
    ensures forall v :: v in MatchedGenerated(prefix, codes) <==>
      exists c :: c in codes && MatchGenerated(prefix, c) == Some(v)
  {
    if codes != [] {
      MatchedGeneratedMembers(prefix, codes[1..]);
      assert codes == [codes[0]] + codes[1..];
    }
  }

  /** The corrected generator: as `GenerateProductCode`, but over the generated code strings. */
  function GenerateNextCode(categoryName: string, existingCodes: seq<string>): (r: string)
    ensures |r| >= 5
    ensures |Letters(categoryName)| >= 2 ==> r[..2] == Prefix(categoryName)
  {
    var prefix := Prefix(categoryName);
    if |prefix| < 2 then "XX001"
    else Assemble(prefix, NextSeq(MatchedGenerated(prefix, existingCodes)))
  }

  /** The corrected generator keeps the `XX001` fallback. */
  lemma GenerateNextCodeFallback(categoryName: string, existingCodes: seq<string>)
    requires |Letters(categoryName)| < 2
    ensures GenerateNextCode(categoryName, existingCodes) == "XX001"
  {
    assert |Prefix(categoryName)| < 2;
  }

  /** A positive sequence number, padded to three digits, reads back as itself. */
  lemma PaddedSequenceNumber(n: nat)
    ensures var p := PadStart(IntToString(n), 3, '0');
      |p| >= 3 && AllDigits(p) && DigitsValue(p) == n
  {
    var digits := NatToString(n);
    var p := PadStart(digits, 3, '0');
    assert p == Repeat('0', |p| - |digits|) + digits;
    DigitsValueOfZeroPadded(|p| - |digits|, digits);
    DigitsValueOfNatToString(n);
  }

  /** A prefix followed by a padded sequence number is matched, with that number. */
  lemma MatchGeneratedOfCode(prefix: string, n: nat)
    ensures MatchGenerated(prefix, prefix + PadStart(IntToString(n), 3, '0')) == Some(n)
  {
    var padded := PadStart(IntToString(n), 3, '0');
    PaddedSequenceNumber(n);
    var r := prefix + padded;
    assert r[..|prefix|] == prefix;
    assert r[|prefix|..] == padded;
  }

  /**
   * Converse of `MatchGeneratedOfCode`: a matched code as long as the
   * printed form of its number is that printed form.
   */
  lemma MatchedCodeIsPrintedForm(prefix: string, code: string, n: int)
    requires MatchGenerated(prefix, code) == Some(n)
    requires |code| == |Assemble(prefix, n)|
    ensures code == Assemble(prefix, n)
  {
    var digits := code[|prefix|..];
    var padded := PadStart(IntToString(n), 3, '0');
    PaddedSequenceNumber(n);
    assert Assemble(prefix, n) == prefix + padded;
    DigitsValueInjective(digits, padded);
    assert code == code[..|prefix|] + digits;
  }

  /** The next sequence number is positive and exceeds that of every existing code of the prefix. */
  lemma NextSeqExceedsExisting(prefix: string, existingCodes: seq<string>)
    ensures var n := NextSeq(MatchedGenerated(prefix, existingCodes));
      n >= 1 && forall c :: c in existingCodes && MatchGenerated(prefix, c).Some? ==> MatchGenerated(prefix, c).value < n
  {
    var matched := MatchedGenerated(prefix, existingCodes);
    MatchedGeneratedMembers(prefix, existingCodes);
    var n := NextSeq(matched);
    if matched != [] {
      assert n - 1 in matched;
    }
    forall c | c in existingCodes && MatchGenerated(prefix, c).Some?
      ensures MatchGenerated(prefix, c).value < n
    {
      assert MatchGenerated(prefix, c).value in matched;
    }
  }

  /**
   * The generated code is itself a code of its prefix, and its sequence
   * number is positive and exceeds that of every existing code of the prefix.
   */
  lemma GenerateNextCodeAdvances(categoryName: string, existingCodes: seq<string>)
    requires |Letters(categoryName)| >= 2
    ensures var prefix := Prefix(categoryName);
      var m := MatchGenerated(prefix, GenerateNextCode(categoryName, existingCodes));
      m.Some? && m.value >= 1
      && forall c :: c in existingCodes && MatchGenerated(prefix, c).Some? ==> MatchGenerated(prefix, c).value < m.value
  {
    var prefix := Prefix(categoryName);
    var n := NextSeq(MatchedGenerated(prefix, existingCodes));
    assert GenerateNextCode(categoryName, existingCodes) == Assemble(prefix, n);
    NextSeqExceedsExisting(prefix, existingCodes);
    MatchGeneratedOfCode(prefix, n);
  }

  /** A corrected code never repeats one that already exists (given at least two letters). */
  lemma GenerateNextCodeIsFresh(categoryName: string, existingCodes: seq<string>)
    requires |Letters(categoryName)| >= 2
    ensures GenerateNextCode(categoryName, existingCodes) !in existingCodes
  {
    GenerateNextCodeAdvances(categoryName, existingCodes);
  }

  // Worked examples.

  /** The prefix is the first two letters ("AP"), not the first and last ("AE"). */
  lemma ExampleFirstTwoLetters()
    ensures GenerateProductCode("Apple", []) == "AP001"
  {
    GenerateUsesFirstTwoLetters("Apple", 0, 1, []);
  }

  /** Surrounding whitespace and case do not matter, and the existing codes are ignored. */
  lemma ExampleTrimmedName()
    ensures GenerateProductCode("  beverages ", [101, 202]) == "BE001"
  {
    var s := "  beverages ";
    assert !IsAsciiLetter(s[0]) && !IsAsciiLetter(s[1]) && s[2] == 'b' && s[3] == 'e';
    GenerateUsesFirstTwoLetters(s, 2, 3, [101, 202]);
  }

  /** A name with a single letter falls back to `XX001`. */
  lemma ExampleFallback()
    ensures GenerateProductCode("9 x", [5]) == "XX001"
  {
    var s := "9 x";
    assert s == "9 " + "x";
    LettersAppend("9 ", "x");
    LettersOfNonLetters("9 ");
    assert Letters("x") == "x";
  }
}
