/** The embedding bits of a font in plain numbers, and its bytes high byte first. */
module SfntBits {
  import opened Sfnt

  /** Bits 1, 2, 3, 8 and 9 of a number. */
  lemma BitsInNumbers(v: nat)
    ensures Bit(v, 1) <==> v % 4 >= 2
    ensures Bit(v, 2) <==> v % 8 >= 4
    ensures Bit(v, 3) <==> v % 16 >= 8
    ensures Bit(v, 8) <==> v % 512 >= 256
    ensures Bit(v, 9) <==> v % 1024 >= 512
  {
    hide Pow2;
    Powers();
    HalfOfTwice(v, 2, v / 4, v % 4);
    HalfOfTwice(v, 4, v / 8, v % 8);
    HalfOfTwice(v, 8, v / 16, v % 16);
    HalfOfTwice(v, 256, v / 512, v % 512);
    HalfOfTwice(v, 512, v / 1024, v % 1024);
  }

  /** v is q times twice p and r over: its quotient by p is odd exactly when r reaches p. */
  lemma HalfOfTwice(v: nat, p: nat, q: nat, r: nat)
    requires p > 0 && v == q * (2 * p) + r && r < 2 * p
    ensures v / p % 2 == 1 <==> r >= p
  {
    if r < p {
      QuotientIs(v, p, 2 * q, r);
    } else {
      QuotientIs(v, p, 2 * q + 1, r - p);
    }
  }

  lemma QuotientIs(v: nat, p: nat, q: nat, r: nat)
    requires p > 0 && v == q * p + r && r < p
    ensures v / p == q
  {
    var d := v / p - q;
    assert v == (v / p) * p + v % p;
    assert d * p == r - v % p;
    MultipleIsFar(d, p);
  }

  lemma MultipleIsFar(d: int, p: int)
    requires p >= 0
    ensures d > 0 ==> d * p >= p
    ensures d < 0 ==> d * p <= -p
  {
    if d > 0 {
      assert (d - 1) * p >= 0;
    } else if d < 0 {
      assert (-d - 1) * p >= 0;
    }
  }

  lemma Powers()
    ensures Pow2(1) == 2 && Pow2(2) == 4 && Pow2(3) == 8 && Pow2(8) == 256 && Pow2(9) == 512
  {
    assert Pow2(4) == 16 && Pow2(5) == 32 && Pow2(6) == 64 && Pow2(7) == 128;
  }

  /** The labels listed for a value, by name. */
  lemma LabelsInNumbers(v: nat)
    ensures var flags := LabelsOf(v, |LABELS|);
            && ("restricted_license_embedding" in flags <==> v % 4 >= 2)
            && ("preview_and_print_embedding" in flags <==> v % 8 >= 4)
            && ("editable_embedding" in flags <==> v % 16 >= 8)
            && ("no_subsetting" in flags <==> v % 512 >= 256)
            && ("bitmap_only" in flags <==> v % 1024 >= 512)
  {
    hide Bit, LabelsOf;
    BitsInNumbers(v);
    LabelsInOrder(v, |LABELS|);
    assert LABELS[0] == (1, "restricted_license_embedding") && LABELS[1] == (2, "preview_and_print_embedding");
    assert LABELS[2] == (3, "editable_embedding") && LABELS[3] == (8, "no_subsetting");
    assert LABELS[4] == (9, "bitmap_only");
  }

  /** Any of the three restriction bits is set exactly when a number modulo sixteen is two or more. */
  lemma RestrictedInNumbers(v: nat)
    ensures Bit(v, 1) || Bit(v, 2) || Bit(v, 3) <==> v % 16 >= 2
  {
    hide Bit;
    BitsInNumbers(v);
    var q, r := v / 16, v % 16;
    RemainderIs(v, 8, if r < 8 then 2 * q else 2 * q + 1, if r < 8 then r else r - 8);
    RemainderIs(v, 4, 4 * q + r / 4, r % 4);
  }

  lemma RemainderIs(v: nat, p: nat, q: nat, r: nat)
    requires p > 0 && v == q * p + r && r < p
    ensures v % p == r
  {
    QuotientIs(v, p, q, r);
    assert v == (v / p) * p + v % p;
  }

  lemma HighByteFirst(a: Byte, b: Byte, c: Byte, d: Byte)
    ensures U16([a, b], 0) == a as int * 256 + b as int
    ensures U32([a, b, c, d], 0) == ((a as int * 256 + b as int) * 256 + c as int) * 256 + d as int
  {
  }

  /** The four file versions: 1.0, OTTO, true and typ1. */
  lemma KnownVersions(v: Bytes)
    ensures KnownVersion(v) <==>
      |v| == 4 && (v == [0, 1, 0, 0] || Spells(v, "OTTO") || Spells(v, "true") || Spells(v, "typ1"))
    ensures |OS2| == 4 && Spells(OS2, "OS/2")
  {
  }

  predicate Spells(v: Bytes, s: string)
    requires |v| == |s|
  {
    forall k :: 0 <= k < |s| ==> v[k] == s[k] as int
  }
}
