/**
 * CodeFix.py: the national prefix map `wilayah` and the `detect` loop that
 * feeds it.
 */
module CodeFix {
  import opened Outcomes
  import opened PlateText
  import opened Geometry
  import opened Ocr
  import opened RatioGate
  import opened CandidateRecords

  const Unrecognised := "Tidak dikenali"
  const Unregistered := "Wilayah tidak terdaftar"

  /** The prefix map in declaration order, which is the order a dict iterates in. */
  const Prefixes: seq<(string, string)> := [
    ("BE", "Lampung"),
    ("D", "Bandung"),
    ("E", "Cirebon"),
    ("B", "Jakarta & Sekitar"),
    ("F", "Bogor"),
    ("BG", "Palembang"),
    ("L", "Surabaya"),
    ("H", "Semarang"),
    ("AB", "Yogyakarta")
  ]

  /** The value of the first entry whose key starts `t` (`for k, v in peta.items(): if t.startswith(k)`). */
  function PrefixLookup(t: string, table: seq<(string, string)>): Option<string>
    decreases |table|
  {
    if table == [] then None
    else if StartsWith(t, table[0].0) then Some(table[0].1)
    else PrefixLookup(t, table[1..])
  }

  /** `wilayah(text)`. */
  function Wilayah(text: string): string
  {
    if text == "" then Unrecognised
    else match PrefixLookup(Canonical(text), Prefixes)
      case None => Unregistered
      case Some(v) => v
  }

  /** Entry `j` is the first entry of `table` whose key starts `t`. */
  predicate FirstPrefix(t: string, table: seq<(string, string)>, j: int)
  {
    && 0 <= j < |table| && StartsWith(t, table[j].0)
    && forall j' :: 0 <= j' < j ==> !StartsWith(t, table[j'].0)
  }

  lemma {:induction false} PrefixLookupSpec(t: string, table: seq<(string, string)>)
    ensures PrefixLookup(t, table).None? <==> forall j :: 0 <= j < |table| ==> !StartsWith(t, table[j].0)
    ensures PrefixLookup(t, table).Some? ==>
      exists j :: FirstPrefix(t, table, j) && PrefixLookup(t, table).value == table[j].1
    decreases |table|
  {
    if table != [] {
      if StartsWith(t, table[0].0) {
        assert FirstPrefix(t, table, 0);
      } else {
        PrefixLookupSpec(t, table[1..]);
        if PrefixLookup(t, table).Some? {
          var j :| FirstPrefix(t, table[1..], j) && PrefixLookup(t, table).value == table[1..][j].1;
          assert FirstPrefix(t, table, j + 1);
        }
      }
    }
  }

  /** At most one entry is the first to match. */
  lemma FirstPrefixUnique(t: string, table: seq<(string, string)>, a: int, b: int)
    requires FirstPrefix(t, table, a) && FirstPrefix(t, table, b)
    ensures a == b
  {
    assert !(a < b) && !(b < a);
  }

  /** The nine region names and the two sentinels are pairwise different. */
  lemma PrefixNamesDistinct()
    ensures forall a, b :: 0 <= a < b < |Prefixes| ==> Prefixes[a].1 != Prefixes[b].1
    ensures forall j :: 0 <= j < |Prefixes| ==> Prefixes[j].1 != Unrecognised && Prefixes[j].1 != Unregistered
    ensures Unrecognised != Unregistered
  {
  }

  /**
   * What `wilayah` answers: "Tidak dikenali" exactly for empty text; the
   * name of entry `j` exactly when `j` is the first key (in declaration
   * order) that starts the cleaned text; "Wilayah tidak terdaftar" exactly
   * when no key starts it.
   */
  lemma WilayahSpec(text: string)
    ensures Wilayah(text) == Unrecognised <==> text == ""
    ensures Wilayah(text) == Unregistered <==>
      text != "" && forall j :: 0 <= j < |Prefixes| ==> !StartsWith(Canonical(text), Prefixes[j].0)
    ensures forall j :: 0 <= j < |Prefixes| ==>
      (Wilayah(text) == Prefixes[j].1 <==> text != "" && FirstPrefix(Canonical(text), Prefixes, j))
  {
    PrefixNamesDistinct();
    var t := Canonical(text);
    PrefixLookupSpec(t, Prefixes);
    if text != "" && PrefixLookup(t, Prefixes).Some? {
      var j0 :| FirstPrefix(t, Prefixes, j0) && Wilayah(text) == Prefixes[j0].1;
      forall j | FirstPrefix(t, Prefixes, j) ensures j == j0 {
        FirstPrefixUnique(t, Prefixes, j, j0);
      }
    }
  }

  lemma PrefixOfPrefix(t: string, long: string, short: string)
    requires StartsWith(t, long) && StartsWith(long, short)
    ensures StartsWith(t, short)
  {
    assert t[..|short|] == t[..|long|][..|short|];
  }

  /** An entry whose key extends the key of an earlier entry is never the first match. */
  lemma Shadowed(t: string, table: seq<(string, string)>, a: int, b: int)
    requires 0 <= a < b < |table| && StartsWith(table[b].0, table[a].0)
    ensures !FirstPrefix(t, table, b)
  {
    if StartsWith(t, table[b].0) {
      PrefixOfPrefix(t, table[b].0, table[a].0);
    }
  }

  /** "B" is declared before "BG", so no text ever maps to Palembang. */
  lemma PalembangUnreachable(text: string)
    ensures Wilayah(text) != "Palembang"
  {
    WilayahSpec(text);
    Shadowed(Canonical(text), Prefixes, 3, 5);
  }

  /** "BE" is declared before "B", so a BE plate maps to Lampung, not to Jakarta. */
  lemma LampungPlates(text: string)
    requires StartsWith(Canonical(text), "BE")
    ensures Wilayah(text) == "Lampung"
  {
    assert text != "" by {
      assert Canonical(text) != "";
    }
  }

  /** A BG plate falls to the earlier key "B". */
  lemma PalembangPlatesGoToJakarta(text: string)
    requires StartsWith(Canonical(text), "BG")
    ensures Wilayah(text) == "Jakarta & Sekitar"
  {
    var t := Canonical(text);
    assert t != "";
    assert t[..1] == "B" by {
      assert t[..1] == t[..2][..1];
    }
    assert !StartsWith(t, "BE") by {
      assert t[1] == t[..2][1] == 'G';
    }
    WilayahSpec(text);
    assert FirstPrefix(t, Prefixes, 3);
  }

  /** An AB plate matches no earlier key and maps to Yogyakarta. */
  lemma YogyakartaPlates(text: string)
    requires StartsWith(Canonical(text), "AB")
    ensures Wilayah(text) == "Yogyakarta"
  {
    var t := Canonical(text);
    assert t != "";
    assert t[0] == t[..2][0] == 'A';
    forall j | 0 <= j < 8 ensures !StartsWith(t, Prefixes[j].0) {
      var key := Prefixes[j].0;
      assert key[0] != 'A';
      assert |key| <= |t| ==> t[..|key|][0] == 'A';
    }
    WilayahSpec(text);
    assert FirstPrefix(t, Prefixes, 8);
  }

  /** Non-empty text with nothing left after the clean-up is unregistered, not unrecognised. */
  lemma NothingLeft(text: string)
    requires text != "" && Canonical(text) == ""
    ensures Wilayah(text) == Unregistered
  {
  }

  /** Worked input: a Lampung plate. */
  lemma LampungExample()
    ensures Wilayah("BE1234CD") == "Lampung"
  {
    CanonicalFixed("BE1234CD");
    LampungPlates("BE1234CD");
  }

  /** Worked input: a Palembang plate. */
  lemma PalembangExample()
    ensures Wilayah("BG1234CD") == "Jakarta & Sekitar"
  {
    CanonicalFixed("BG1234CD");
    PalembangPlatesGoToJakarta("BG1234CD");
  }

  /** Worked input: a Yogyakarta plate. */
  lemma YogyakartaExample()
    ensures Wilayah("AB1234CD") == "Yogyakarta"
  {
    CanonicalFixed("AB1234CD");
    YogyakartaPlates("AB1234CD");
  }

  lemma KeyInitials()
    ensures forall j :: 0 <= j < |Prefixes| ==> Prefixes[j].0 != "" && Prefixes[j].0[0] in "ABDEFHL"
  {
  }

  /** Every key starts with one of A, B, D, E, F, H or L; other plates are unregistered. */
  lemma UnlistedInitial(text: string)
    requires Canonical(text) != "" && Canonical(text)[0] !in "ABDEFHL"
    ensures Wilayah(text) == Unregistered
  {
    var t := Canonical(text);
    KeyInitials();
    forall j | 0 <= j < |Prefixes| ensures !StartsWith(t, Prefixes[j].0) {
      var k := Prefixes[j].0;
      if |k| <= |t| {
        assert t[..|k|][0] == t[0];
      }
    }
    PrefixLookupSpec(t, Prefixes);
  }

  /** Worked input: a prefix that is in no key. */
  lemma UnregisteredExample()
    ensures Wilayah("Z1234") == Unregistered
  {
    CanonicalFixed("Z1234");
    UnlistedInitial("Z1234");
  }

  /**
   * `detect`: the gate of `RatioGate`, then for each kept contour its
   * rectangle, its crop, the alphanumeric characters OCR reads in it and the
   * `wilayah` of that text. OCR is called with no `try`, so an OCR exception
   * ends the whole call.
   */
  method Detect(img: Image, cs: seq<Contour>, p: GateParams, engine: Engine) returns (r: Result<Records, Fault>)
    ensures r.Err? <==> OcrFails(img, Kept(cs, p), Ready(engine))
    ensures r.Err? ==> r.error == OcrFailed
    ensures r.Ok? ==> Describes(r.value, img, Kept(cs, p), Ready(engine), Wilayah)
  {
    r := DetectCandidates(img, cs, p, Ready(engine), Wilayah);
  }
}
