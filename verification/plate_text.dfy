/**
 * Character classes and the string clean-ups applied to OCR output and to
 * plate text before a region is resolved. Characters are classified on ASCII.
 */
module PlateText {
  import opened Seqs

  predicate IsUpper(c: char) { 'A' <= c <= 'Z' }
  predicate IsLower(c: char) { 'a' <= c <= 'z' }
  predicate IsDigit(c: char) { '0' <= c <= '9' }

  /** `str.isalnum` on ASCII characters. */
  predicate IsAlnum(c: char) { IsUpper(c) || IsLower(c) || IsDigit(c) }

  /** The regular-expression class `[A-Z0-9]`. */
  predicate IsPlateChar(c: char) { IsUpper(c) || IsDigit(c) }

  /** `str.isspace` on ASCII characters (space, \t \n \v \f \r and the separators 0x1C-0x1F). */
  predicate IsSpace(c: char)
  {
    c == ' ' || 9 <= c as int <= 13 || 28 <= c as int <= 31
  }

  function UpperChar(c: char): (u: char)
    ensures IsLower(c) ==> IsUpper(u)
    ensures !IsLower(c) ==> u == c
  {
    if IsLower(c) then (c as int - 32) as char else c
  }

  /** `str.upper` on ASCII: lower-case letters become upper-case, everything else is kept. */
  function Upper(s: string): (r: string)
    ensures |r| == |s|
    ensures forall i :: 0 <= i < |r| ==> !IsLower(r[i])
    ensures forall i :: 0 <= i < |s| && !IsLower(s[i]) ==> r[i] == s[i]
    ensures forall i :: 0 <= i < |s| && IsLower(s[i]) ==> IsUpper(r[i]) && r[i] as int == s[i] as int - 32
  {
    seq(|s|, i requires 0 <= i < |s| => UpperChar(s[i]))
  }

  /** Upper-casing twice is upper-casing once. */
  lemma UpperIdempotent(s: string)
    ensures Upper(Upper(s)) == Upper(s)
  {
  }

  /** Upper-casing works character by character, so it distributes over concatenation. */
  lemma UpperAppend(a: string, b: string)
    ensures Upper(a + b) == Upper(a) + Upper(b)
  {
  }

  predicate StartsWith(s: string, prefix: string)
  {
    |prefix| <= |s| && s[..|prefix|] == prefix
  }

  /** `"".join(ch for ch in s if ch.isalnum())`: the OCR output reduced to letters and digits. */
  function Sanitize(s: string): string
  {
    Filter(s, IsAlnum)
  }

  /** `re.sub(r"[^A-Z0-9]", "", s.upper())`: upper-case, then drop everything outside `[A-Z0-9]`. */
  function Canonical(s: string): (r: string)
    ensures forall i :: 0 <= i < |r| ==> IsPlateChar(r[i])
  {
    FilterSound(Upper(s), IsPlateChar);
    Filter(Upper(s), IsPlateChar)
  }

  /**
   * Upper-casing and then keeping `[A-Z0-9]` is the same as keeping the
   * alphanumeric characters and then upper-casing them.
   */
  lemma {:induction false} CanonicalIsUpperSanitized(s: string)
    ensures Canonical(s) == Upper(Sanitize(s))
    decreases |s|
  {
    if s != [] {
      var init := s[..|s| - 1];
      var c := s[|s| - 1];
      CanonicalIsUpperSanitized(init);
      assert Upper(s)[..|s| - 1] == Upper(init);
      assert Upper(Filter(init, IsAlnum) + [c]) == Upper(Filter(init, IsAlnum)) + [UpperChar(c)];
    }
  }

  /** Canonical text is already canonical. */
  lemma CanonicalIdempotent(s: string)
    ensures Canonical(Canonical(s)) == Canonical(s)
  {
    var t := Canonical(s);
    assert Upper(t) == t;
    FilterAllKept(t, IsPlateChar);
  }

  /** A filter that rejects nothing returns its input. */
  lemma {:induction false} FilterAllKept<T>(s: seq<T>, f: T -> bool)
    requires forall i :: 0 <= i < |s| ==> f(s[i])
    ensures Filter(s, f) == s
    decreases |s|
  {
    if s != [] {
      FilterAllKept(s[..|s| - 1], f);
    }
  }

  /** Every character from `i` on is in `[A-Z0-9]` (checked one position at a time). */
  predicate PlateCharsFrom(s: string, i: nat)
    decreases |s| - i
  {
    i >= |s| || (IsPlateChar(s[i]) && PlateCharsFrom(s, i + 1))
  }

  lemma {:induction false} PlateCharsFromSound(s: string, i: nat)
    requires PlateCharsFrom(s, i)
    ensures forall j :: i <= j < |s| ==> IsPlateChar(s[j])
    decreases |s| - i
  {
    if i < |s| {
      PlateCharsFromSound(s, i + 1);
    }
  }

  /** Text made only of `[A-Z0-9]` is left as it is by the clean-up. */
  lemma CanonicalFixed(s: string)
    requires PlateCharsFrom(s, 0)
    ensures Canonical(s) == s
  {
    PlateCharsFromSound(s, 0);
    assert Upper(s) == s;
    FilterAllKept(s, IsPlateChar);
  }

  /**
   * `s.replace("8E", "BE")`: Python scans left to right and rewrites
   * non-overlapping occurrences.
   */
  function ReplaceConfusion(s: string): (r: string)
    ensures |r| == |s|
    decreases |s|
  {
    if |s| >= 2 && s[0] == '8' && s[1] == 'E' then "BE" + ReplaceConfusion(s[2..])
    else if s == [] then []
    else [s[0]] + ReplaceConfusion(s[1..])
  }

  /** An `8` immediately followed by an `E` at position `i`. */
  predicate ConfusedAt(s: string, i: int)
  {
    0 <= i && i + 1 < |s| && s[i] == '8' && s[i + 1] == 'E'
  }

  /**
   * Occurrences of "8E" never overlap, so the left-to-right rewrite changes
   * exactly the `8` of every occurrence into a `B` and keeps everything else.
   */
  lemma {:induction false} ReplaceConfusionPointwise(s: string)
    ensures forall i :: 0 <= i < |s| ==>
      ReplaceConfusion(s)[i] == if ConfusedAt(s, i) then 'B' else s[i]
    decreases |s|
  {
    if |s| >= 2 && s[0] == '8' && s[1] == 'E' {
      ReplaceConfusionPointwise(s[2..]);
      forall i | 0 <= i < |s|
        ensures ReplaceConfusion(s)[i] == if ConfusedAt(s, i) then 'B' else s[i]
      {
        if i >= 2 {
          assert ConfusedAt(s, i) == ConfusedAt(s[2..], i - 2);
        }
      }
    } else if s != [] {
      ReplaceConfusionPointwise(s[1..]);
      forall i | 0 <= i < |s|
        ensures ReplaceConfusion(s)[i] == if ConfusedAt(s, i) then 'B' else s[i]
      {
        if i >= 1 {
          assert ConfusedAt(s, i) == ConfusedAt(s[1..], i - 1);
        }
      }
    }
  }

  /** After the rewrite no "8E" is left, and no character outside `[A-Z0-9]` is introduced. */
  lemma ReplaceConfusionClears(s: string)
    ensures forall i :: !ConfusedAt(ReplaceConfusion(s), i)
    ensures (forall i :: 0 <= i < |s| ==> IsPlateChar(s[i])) ==>
      forall i :: 0 <= i < |s| ==> IsPlateChar(ReplaceConfusion(s)[i])
  {
    ReplaceConfusionPointwise(s);
    var r := ReplaceConfusion(s);
    forall i | 0 <= i ensures !ConfusedAt(r, i) {
      if i + 1 < |r| && r[i] == '8' {
        assert !ConfusedAt(s, i) && s[i] == '8';
        assert r[i + 1] == s[i + 1] || r[i + 1] == 'B';
      }
    }
  }

  /** Rewriting twice is rewriting once. */
  lemma ReplaceConfusionIdempotent(s: string)
    ensures ReplaceConfusion(ReplaceConfusion(s)) == ReplaceConfusion(s)
  {
    var r := ReplaceConfusion(s);
    ReplaceConfusionClears(s);
    ReplaceConfusionPointwise(r);
  }

  function StripLeft(s: string): string
    decreases |s|
  {
    if s != [] && IsSpace(s[0]) then StripLeft(s[1..]) else s
  }

  function StripRight(s: string): string
    decreases |s|
  {
    if s != [] && IsSpace(s[|s| - 1]) then StripRight(s[..|s| - 1]) else s
  }

  /** `str.strip()`: drop leading and trailing white space. */
  function Strip(s: string): string
  {
    StripRight(StripLeft(s))
  }

  /** Sanitised text holds no white space, so stripping it afterwards changes nothing. */
  lemma StripSanitized(s: string)
    ensures Strip(Sanitize(s)) == Sanitize(s)
  {
    FilterSound(s, IsAlnum);
  }

  /** Canonicalisation works character by character, so it distributes over concatenation. */
  lemma CanonicalAppend(a: string, b: string)
    ensures Canonical(a + b) == Canonical(a) + Canonical(b)
  {
    assert Upper(a + b) == Upper(a) + Upper(b);
    FilterAppend(Upper(a), Upper(b), IsPlateChar);
  }
}
