/**
 * `get_region` (DsTuju.py and DsEnam.py carry the same code): resolves plate
 * text to a regency of Lampung province from the letter that follows the
 * number of a "BE" plate.
 */
module LampungRegion {
  import opened Outcomes
  import opened PlateText

  const EmptyText := "teks plat kosong"
  const NotLampung := "plat ini bukan dari lampung"
  const UnknownCode := "kode wilayah Lampung tidak dikenali"

  /** The letter-set table, in declaration order: a key is a string of code letters. */
  const Regencies: seq<(string, string)> := [
    ("ABC", "Kota Bandar Lampung"),
    ("EF", "Kabupaten Lampung Selatan"),
    ("GH", "Kabupaten Lampung Tengah"),
    ("JK", "Kabupaten Lampung Utara"),
    ("LM", "Kabupaten Tanggamus"),
    ("NP", "Kabupaten Tulang Bawang"),
    ("QR", "Kabupaten Lampung Timur"),
    ("ST", "Kabupaten Way Kanan"),
    ("UV", "Kabupaten Pesawaran"),
    ("WX", "Kabupaten Mesuji"),
    ("YZ", "Kabupaten Pesisir Barat & Tulang Bawang Barat")
  ]

  /** Upper-case, keep `[A-Z0-9]`, then rewrite the OCR confusion "8E" to "BE". */
  function Normalize(text: string): string
  {
    ReplaceConfusion(Canonical(text))
  }

  /** Length of the run of decimal digits of `s` that starts at `i`. */
  function DigitRun(s: string, i: nat): (n: nat)
    requires i <= |s|
    ensures i + n <= |s|
    ensures forall m :: i <= m < i + n ==> IsDigit(s[m])
    ensures i + n < |s| ==> !IsDigit(s[i + n])
    decreases |s| - i
  {
    if i < |s| && IsDigit(s[i]) then 1 + DigitRun(s, i + 1) else 0
  }

  /** The pattern `BE\d+([A-Z])` matches at `i`, with `k` digits before the letter. */
  predicate CodeMatchAt(s: string, i: int, k: int)
  {
    && 0 <= i && 1 <= k && i + 2 + k < |s|
    && s[i] == 'B' && s[i + 1] == 'E'
    && (forall m :: i + 2 <= m < i + 2 + k ==> IsDigit(s[m]))
    && IsUpper(s[i + 2 + k])
  }

  /** `i` is where `re.search` finds its match: the pattern matches there and at no earlier position. */
  ghost predicate IsLeftmostMatch(s: string, i: int, k: int)
  {
    CodeMatchAt(s, i, k) && forall i', k' :: 0 <= i' < i ==> !CodeMatchAt(s, i', k')
  }

  /** Trying the pattern at `i`: the letter after the greedy digit run (backtracking cannot help). */
  function MatchAt(s: string, i: nat): Option<char>
  {
    if i + 2 <= |s| && s[i] == 'B' && s[i + 1] == 'E' then
      var n := DigitRun(s, i + 2);
      if 1 <= n && i + 2 + n < |s| && IsUpper(s[i + 2 + n]) then Some(s[i + 2 + n]) else None
    else None
  }

  /** The unanchored search, trying positions `i`, `i + 1`, ... in turn. */
  function SearchFrom(s: string, i: nat): Option<char>
    requires i <= |s|
    decreases |s| - i
  {
    if i == |s| then None
    else if MatchAt(s, i).Some? then MatchAt(s, i)
    else SearchFrom(s, i + 1)
  }

  /** `re.search(r"BE\d+([A-Z])", s).group(1)`, or `None` when there is no match. */
  function CodeLetter(s: string): Option<char>
  {
    SearchFrom(s, 0)
  }

  /** The first entry of `table` whose key contains `c` (`for k, v in ...: if code in k`). */
  function LookupIn(c: char, table: seq<(string, string)>): Option<string>
    decreases |table|
  {
    if table == [] then None
    else if c in table[0].0 then Some(table[0].1)
    else LookupIn(c, table[1..])
  }

  function LookupLetter(c: char): Option<string>
  {
    LookupIn(c, Regencies)
  }

  /** `get_region(text)`. */
  function GetRegion(text: string): string
  {
    if text == "" then EmptyText
    else
      var t := Normalize(text);
      if !StartsWith(t, "BE") then NotLampung
      else match CodeLetter(t)
        case None => UnknownCode
        case Some(c) => match LookupLetter(c)
          case None => UnknownCode
          case Some(name) => name
  }

  // ---------------------------------------------------------------------
  // The regular-expression search

  lemma {:induction false} DigitRunExact(s: string, i: nat, k: nat)
    requires i + k < |s|
    requires forall m :: i <= m < i + k ==> IsDigit(s[m])
    requires !IsDigit(s[i + k])
    ensures DigitRun(s, i) == k
    decreases k
  {
    if k > 0 {
      DigitRunExact(s, i + 1, k - 1);
    }
  }

  /** Trying the pattern at one position finds exactly the letter of a match there. */
  lemma MatchAtSpec(s: string, i: nat)
    ensures MatchAt(s, i).Some? ==> CodeMatchAt(s, i, DigitRun(s, i + 2)) && MatchAt(s, i).value == s[i + 2 + DigitRun(s, i + 2)]
    ensures forall k :: CodeMatchAt(s, i, k) ==> MatchAt(s, i) == Some(s[i + 2 + k])
  {
    forall k | CodeMatchAt(s, i, k) ensures MatchAt(s, i) == Some(s[i + 2 + k]) {
      DigitRunExact(s, i + 2, k);
    }
  }

  /** The search from `j` returns the letter of the first match at or after `j`. */
  lemma {:induction false} SearchFromSpec(s: string, j: nat)
    requires j <= |s|
    ensures SearchFrom(s, j).None? ==> forall i, k :: j <= i ==> !CodeMatchAt(s, i, k)
    ensures SearchFrom(s, j).Some? ==> exists i, k ::
      && j <= i && CodeMatchAt(s, i, k) && s[i + 2 + k] == SearchFrom(s, j).value
      && forall i', k' :: j <= i' < i ==> !CodeMatchAt(s, i', k')
    decreases |s| - j
  {
    if j < |s| {
      MatchAtSpec(s, j);
      if MatchAt(s, j).None? {
        SearchFromSpec(s, j + 1);
        if SearchFrom(s, j).Some? {
          var i, k :| && j + 1 <= i && CodeMatchAt(s, i, k) && s[i + 2 + k] == SearchFrom(s, j).value
                      && forall i', k' :: j + 1 <= i' < i ==> !CodeMatchAt(s, i', k');
          assert forall i', k' :: j <= i' < i ==> !CodeMatchAt(s, i', k');
        }
      } else {
        var k := DigitRun(s, j + 2);
        assert CodeMatchAt(s, j, k) && s[j + 2 + k] == SearchFrom(s, j).value;
      }
    }
  }

  /** A match position fixes the digit count, hence the captured letter. */
  lemma MatchLengthUnique(s: string, i: int, k: int, k': int)
    requires CodeMatchAt(s, i, k) && CodeMatchAt(s, i, k')
    ensures k == k'
  {
    DigitRunExact(s, i + 2, k);
    DigitRunExact(s, i + 2, k');
  }

  /**
   * The code letter is the letter captured by the leftmost match of
   * `BE\d+([A-Z])`, wherever in the text it lies, and there is none exactly
   * when the pattern matches nowhere.
   */
  lemma CodeLetterSpec(s: string, c: char)
    ensures CodeLetter(s) == Some(c) <==> exists i, k :: IsLeftmostMatch(s, i, k) && s[i + 2 + k] == c
    ensures CodeLetter(s).None? <==> forall i, k :: !CodeMatchAt(s, i, k)
  {
    SearchFromSpec(s, 0);
    if CodeLetter(s).Some? {
      var i2, k2 :| && 0 <= i2 && CodeMatchAt(s, i2, k2) && s[i2 + 2 + k2] == CodeLetter(s).value
                    && forall i', k' :: 0 <= i' < i2 ==> !CodeMatchAt(s, i', k');
      assert IsLeftmostMatch(s, i2, k2);
      forall i, k | IsLeftmostMatch(s, i, k) ensures i == i2 && s[i + 2 + k] == CodeLetter(s).value {
        assert CodeMatchAt(s, i, k);
        assert !(i2 < i);
        MatchLengthUnique(s, i, k, k2);
      }
    }
  }

  // ---------------------------------------------------------------------
  // The letter-set table

  /** First-match lookup finds the first key containing the letter, and none when no key does. */
  lemma {:induction false} LookupInSpec(c: char, table: seq<(string, string)>)
    ensures LookupIn(c, table).None? <==> forall j :: 0 <= j < |table| ==> c !in table[j].0
    ensures LookupIn(c, table).Some? ==>
      (exists j :: && 0 <= j < |table| && c in table[j].0
                   && LookupIn(c, table).value == table[j].1
                   && forall j' :: 0 <= j' < j ==> c !in table[j'].0)
    decreases |table|
  {
    if table != [] && c !in table[0].0 {
      LookupInSpec(c, table[1..]);
      if LookupIn(c, table).Some? {
        var j :| && 0 <= j < |table[1..]| && c in table[1..][j].0
          && LookupIn(c, table).value == table[1..][j].1
          && forall j' :: 0 <= j' < j ==> c !in table[1..][j'].0;
        assert c in table[j + 1].0;
      }
    }
  }

  /** No letter appears in two keys of the table. */
  predicate KeysDisjoint(table: seq<(string, string)>)
  {
    forall a, b, c :: 0 <= a < b < |table| && c in table[a].0 ==> c !in table[b].0
  }

  /**
   * The keys are consecutive runs of the alphabet; `KeySlot(c)` is the index
   * of the run that `c` falls in.
   */
  function KeySlot(c: char): nat
  {
    if c <= 'C' then 0 else if c <= 'F' then 1 else if c <= 'H' then 2 else if c <= 'K' then 3
    else if c <= 'M' then 4 else if c <= 'P' then 5 else if c <= 'R' then 6 else if c <= 'T' then 7
    else if c <= 'V' then 8 else if c <= 'X' then 9 else 10
  }

  lemma KeySlotOf(j: int, c: char)
    requires 0 <= j < |Regencies| && c in Regencies[j].0
    ensures KeySlot(c) == j
  {
  }

  lemma RegenciesDisjoint()
    ensures KeysDisjoint(Regencies)
  {
    forall a, b, c | 0 <= a < b < |Regencies| && c in Regencies[a].0 ensures c !in Regencies[b].0 {
      KeySlotOf(a, c);
      if c in Regencies[b].0 {
        KeySlotOf(b, c);
      }
    }
  }

  /**
   * Because the keys are disjoint, the answer depends only on which key holds
   * the letter, not on the order the keys are tried in.
   */
  lemma DisjointLookup(c: char, table: seq<(string, string)>, name: string)
    requires KeysDisjoint(table)
    ensures LookupIn(c, table) == Some(name) <==>
      exists j :: 0 <= j < |table| && c in table[j].0 && table[j].1 == name
  {
    LookupInSpec(c, table);
    if exists j :: 0 <= j < |table| && c in table[j].0 && table[j].1 == name {
      var j :| 0 <= j < |table| && c in table[j].0 && table[j].1 == name;
      var j0 :| && 0 <= j0 < |table| && c in table[j0].0
                && LookupIn(c, table).value == table[j0].1
                && forall j' :: 0 <= j' < j0 ==> c !in table[j'].0;
      assert !(j0 < j) && !(j < j0);
    }
  }

  /** D, I and O are the only capital letters that name no regency. */
  lemma UncoveredLetters(c: char)
    requires IsUpper(c)
    ensures LookupLetter(c).None? <==> c == 'D' || c == 'I' || c == 'O'
  {
    LookupInSpec(c, Regencies);
    if c == 'D' || c == 'I' || c == 'O' {
      NoKeyHolds(c);
    } else {
      KeySlotCovers(c);
    }
  }

  lemma NoKeyHolds(c: char)
    requires c == 'D' || c == 'I' || c == 'O'
    ensures forall j :: 0 <= j < |Regencies| ==> c !in Regencies[j].0
  {
  }

  lemma KeySlotCovers(c: char)
    requires IsUpper(c) && c != 'D' && c != 'I' && c != 'O'
    ensures KeySlot(c) < |Regencies| && c in Regencies[KeySlot(c)].0
  {
  }

  /** Every covered capital letter resolves to the name of the alphabet run it falls in. */
  lemma LookupBySlot(c: char)
    requires IsUpper(c) && c != 'D' && c != 'I' && c != 'O'
    ensures LookupLetter(c) == Some(Regencies[KeySlot(c)].1)
  {
    KeySlotCovers(c);
    RegenciesDisjoint();
    DisjointLookup(c, Regencies, Regencies[KeySlot(c)].1);
  }

  /** The fourteen possible answers are pairwise different strings. */
  lemma LabelsDistinct()
    ensures forall j :: 0 <= j < |Regencies| ==>
      Regencies[j].1 != EmptyText && Regencies[j].1 != NotLampung && Regencies[j].1 != UnknownCode
    ensures forall a, b :: 0 <= a < b < |Regencies| ==> Regencies[a].1 != Regencies[b].1
    ensures EmptyText != NotLampung && EmptyText != UnknownCode && NotLampung != UnknownCode
  {
  }

  /**
   * What `get_region` answers, stated by cases on the input: the empty
   * sentinel exactly for empty text; "not from Lampung" exactly when the
   * normalised text does not start with "BE"; regency `j` exactly when the
   * leftmost `BE<digits><letter>` captures a letter of key `j`; otherwise the
   * unknown-code sentinel.
   */
  lemma GetRegionSpec(text: string)
    ensures GetRegion(text) == EmptyText <==> text == ""
    ensures GetRegion(text) == NotLampung <==> text != "" && !StartsWith(Normalize(text), "BE")
    ensures forall j :: 0 <= j < |Regencies| ==>
      (GetRegion(text) == Regencies[j].1 <==>
        && text != "" && StartsWith(Normalize(text), "BE")
        && exists i, k :: IsLeftmostMatch(Normalize(text), i, k) && Normalize(text)[i + 2 + k] in Regencies[j].0)
    ensures GetRegion(text) == UnknownCode <==>
      && text != "" && StartsWith(Normalize(text), "BE")
      && forall i, k, j :: IsLeftmostMatch(Normalize(text), i, k) && 0 <= j < |Regencies| ==>
           Normalize(text)[i + 2 + k] !in Regencies[j].0
  {
    LabelsDistinct();
    var t := Normalize(text);
    if text != "" && StartsWith(t, "BE") {
      match CodeLetter(t) {
        case None =>
          CodeLetterSpec(t, 'A');
          assert GetRegion(text) == UnknownCode;
        case Some(c) =>
          CapturedLetter(t, c);
          RegionOfLetter(text, c);
      }
    }
  }

  /** Past the prefix test, a found letter decides the answer through the key that holds it. */
  lemma RegionOfLetter(text: string, c: char)
    requires text != "" && StartsWith(Normalize(text), "BE") && CodeLetter(Normalize(text)) == Some(c)
    ensures forall j :: 0 <= j < |Regencies| ==> (GetRegion(text) == Regencies[j].1 <==> c in Regencies[j].0)
    ensures GetRegion(text) == UnknownCode <==> forall j :: 0 <= j < |Regencies| ==> c !in Regencies[j].0
  {
    LabelsDistinct();
    RegenciesDisjoint();
    LookupInSpec(c, Regencies);
    match LookupLetter(c) {
      case None =>
        assert GetRegion(text) == UnknownCode;
      case Some(name) =>
        assert GetRegion(text) == name;
        var j0 :| 0 <= j0 < |Regencies| && c in Regencies[j0].0 && name == Regencies[j0].1;
        assert name != UnknownCode;
    }
    forall j | 0 <= j < |Regencies|
      ensures GetRegion(text) == Regencies[j].1 <==> c in Regencies[j].0
    {
      DisjointLookup(c, Regencies, Regencies[j].1);
    }
  }

  /** What holds of the leftmost matches is what holds of the letter the search returns. */
  lemma CapturedLetter(t: string, c: char)
    requires CodeLetter(t) == Some(c)
    ensures forall j :: 0 <= j < |Regencies| ==>
      ((exists i, k :: IsLeftmostMatch(t, i, k) && t[i + 2 + k] in Regencies[j].0) <==> c in Regencies[j].0)
    ensures (forall i, k, j :: IsLeftmostMatch(t, i, k) && 0 <= j < |Regencies| ==> t[i + 2 + k] !in Regencies[j].0)
      <==> forall j :: 0 <= j < |Regencies| ==> c !in Regencies[j].0
  {
    LeftmostLetter(t, c);
    var i0, k0 :| IsLeftmostMatch(t, i0, k0);
    assert t[i0 + 2 + k0] == c;
  }

  /** Every leftmost match captures the letter the search returns. */
  lemma LeftmostLetter(t: string, c: char)
    requires CodeLetter(t) == Some(c)
    ensures exists i, k :: IsLeftmostMatch(t, i, k)
    ensures forall i, k :: IsLeftmostMatch(t, i, k) ==> t[i + 2 + k] == c
  {
    CodeLetterSpec(t, c);
    var i0, k0 :| IsLeftmostMatch(t, i0, k0) && t[i0 + 2 + k0] == c;
    forall i, k | IsLeftmostMatch(t, i, k) ensures t[i + 2 + k] == c {
      assert !(i < i0) && !(i0 < i);
      MatchLengthUnique(t, i, k, k0);
    }
  }

  /** `get_region` always answers one of the eleven regency names or one of the three sentinels. */
  lemma GetRegionTotal(text: string)
    ensures || GetRegion(text) in {EmptyText, NotLampung, UnknownCode}
            || exists j :: 0 <= j < |Regencies| && GetRegion(text) == Regencies[j].1
  {
    var t := Normalize(text);
    if text != "" && StartsWith(t, "BE") && CodeLetter(t).Some? {
      LookupInSpec(CodeLetter(t).value, Regencies);
    }
  }

  /** A plate read as "8E..." resolves exactly as the same plate read as "BE...". */
  lemma ConfusionCorrected(rest: string)
    ensures GetRegion("8E" + rest) == GetRegion("BE" + rest)
  {
    ConfusedPrefixNormal(rest);
    PlainPrefixNormal(rest);
  }

  lemma ConfusedPrefixNormal(rest: string)
    ensures Normalize("8E" + rest) == "BE" + ReplaceConfusion(Canonical(rest))
  {
    var u := Canonical(rest);
    CanonicalAppend("8E", rest);
    CanonicalCodes();
    assert ("8E" + u)[2..] == u;
  }

  /** Both spellings of the prefix are already in normal form. */
  lemma CanonicalCodes()
    ensures Canonical("8E") == "8E" && Canonical("BE") == "BE"
  {
    assert Upper("8E") == "8E";
    assert Upper("BE") == "BE";
  }

  lemma PlainPrefixNormal(rest: string)
    ensures Normalize("BE" + rest) == "BE" + ReplaceConfusion(Canonical(rest))
  {
    var u := Canonical(rest);
    CanonicalAppend("BE", rest);
    CanonicalCodes();
    ReplaceAfterPlain('E', u);
    ReplaceAfterPlain('B', "E" + u);
    assert "BE" + u == ['B'] + ("E" + u);
  }

  /** A character other than `8` starts no "8E" and is kept as it is. */
  lemma ReplaceAfterPlain(ch: char, u: string)
    requires ch != '8'
    ensures ReplaceConfusion([ch] + u) == [ch] + ReplaceConfusion(u)
  {
    assert ([ch] + u)[1..] == u;
  }

  /** The characters from `i` on are all in `[A-Z0-9]` and contain no "8E" (checked one position at a time). */
  predicate NormalFrom(s: string, i: nat)
    decreases |s| - i
  {
    i >= |s| || (IsPlateChar(s[i]) && !ConfusedAt(s, i) && NormalFrom(s, i + 1))
  }

  lemma {:induction false} NormalFromSound(s: string, i: nat)
    requires NormalFrom(s, i)
    ensures forall j :: i <= j < |s| ==> IsPlateChar(s[j]) && !ConfusedAt(s, j)
    decreases |s| - i
  {
    if i < |s| {
      NormalFromSound(s, i + 1);
    }
  }

  /** Text already upper-case alphanumeric and free of "8E" is its own normal form. */
  lemma NormalizeFixed(s: string)
    requires NormalFrom(s, 0)
    ensures Normalize(s) == s
  {
    NormalFromSound(s, 0);
    assert Upper(s) == s;
    FilterAllKept(s, IsPlateChar);
    ReplaceConfusionPointwise(s);
  }

  /** Worked input: the empty text. */
  lemma EmptyExample()
    ensures GetRegion("") == EmptyText
  {
  }

  /** Worked input: punctuation only, which normalises to the empty string. */
  lemma PunctuationExample()
    ensures GetRegion("--") == NotLampung
  {
    assert Sanitize("--") == [];
    CanonicalIsUpperSanitized("--");
  }

  /** Worked input: a plate from outside the province. */
  lemma OutsideExample()
    ensures GetRegion("XY1234Z") == NotLampung
  {
    var t := "XY1234Z";
    NormalOutside();
    NormalizeFixed(t);
    assert !StartsWith(t, "BE") by { assert t[..2][0] == 'X'; }
  }

  lemma NormalOutside()
    ensures NormalFrom("XY1234Z", 0)
  {
  }

  /** Worked input: "BE1234A" names Bandar Lampung. */
  lemma BandarLampungExample()
    ensures GetRegion("BE1234A") == "Kota Bandar Lampung"
  {
    var t := "BE1234A";
    NormalBandarLampung();
    NormalizeFixed(t);
    assert StartsWith(t, "BE") by { assert t[..2] == "BE"; }
    BandarLampungLetter();
    LookupBySlot('A');
  }

  lemma NormalBandarLampung()
    ensures NormalFrom("BE1234A", 0)
  {
  }

  lemma BandarLampungLetter()
    ensures CodeLetter("BE1234A") == Some('A')
  {
  }

  /** Worked input: the OCR misreading "8E1234A" also names Bandar Lampung. */
  lemma MisreadExample()
    ensures GetRegion("8E1234A") == "Kota Bandar Lampung"
  {
    var rest := "1234A";
    ConfusionCorrected(rest);
    assert "8E" + rest == "8E1234A";
    assert "BE" + rest == "BE1234A";
    BandarLampungExample();
  }

  /** Worked input: the match need not start at position 0; here it starts at 3 and captures Q. */
  lemma LaterMatchExample()
    ensures GetRegion("BEXBE12Q") == "Kabupaten Lampung Timur"
  {
    var t := "BEXBE12Q";
    NormalLaterMatch();
    NormalizeFixed(t);
    assert StartsWith(t, "BE") by { assert t[..2] == "BE"; }
    LaterMatchLetter();
    assert LookupLetter('Q') == Some("Kabupaten Lampung Timur") by {
      LookupBySlot('Q');
      assert KeySlot('Q') == 6;
    }
    assert t != "" && Normalize(t) == t;
  }

  lemma NormalLaterMatch()
    ensures NormalFrom("BEXBE12Q", 0)
  {
  }

  lemma LaterMatchLetter()
    ensures CodeLetter("BEXBE12Q") == Some('Q')
  {
  }

  /** Worked input: no letter follows the digits. */
  lemma NoLetterExample()
    ensures GetRegion("BE1234") == UnknownCode
  {
    var t := "BE1234";
    NormalNoLetter();
    NormalizeFixed(t);
    assert StartsWith(t, "BE") by { assert t[..2] == "BE"; }
    NoLetterFound();
  }

  lemma NormalNoLetter()
    ensures NormalFrom("BE1234", 0)
  {
  }

  lemma NoLetterFound()
    ensures CodeLetter("BE1234") == None
  {
  }

  /** Worked input: the letter D is in no key, so the code is unknown (not "not from Lampung"). */
  lemma UnlistedLetterExample()
    ensures GetRegion("BE1234D") == UnknownCode
  {
    var t := "BE1234D";
    NormalUnlisted();
    NormalizeFixed(t);
    assert StartsWith(t, "BE") by { assert t[..2] == "BE"; }
    UnlistedLetterFound();
    UncoveredLetters('D');
  }

  lemma NormalUnlisted()
    ensures NormalFrom("BE1234D", 0)
  {
  }

  lemma UnlistedLetterFound()
    ensures CodeLetter("BE1234D") == Some('D')
  {
  }
}
