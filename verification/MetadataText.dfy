/** The texts of the journal's small metadata files and of its segment names. */
module MetadataText {
  import opened Wrappers
  import opened Decimal
  import opened FileSystem

  const MARKER_TEXT: Bytes := "1\n"
  const INCARNATION_TEXT_BYTES := 37

  function Min(a: nat, b: nat): nat { if a <= b then a else b }

  function NextText(n: nat): Bytes { Print(n) + "\n" }

  /** The number a reservation file holds, or None when the text is malformed. */
  function ReadNext(bytes: Bytes): (r: Option<nat>)
    ensures r.Some? ==> r.value <= MAX_U64
  {
    var text := bytes[..Min(|bytes|, 22)];
    if |text| == 0 || text[|text| - 1] != '\n' then None else
    var value := text[..|text| - 1];
    if |value| == 0 || (|value| > 1 && value[0] == '0') || |text| > 21 then None else
    ParseU64(value)
  }

  predicate LowerHex(c: char) { '0' <= c <= '9' || 'a' <= c <= 'f' }

  /** Canonical lowercase text of a version 7 UUID. */
  predicate CanonicalUuid(t: Bytes)
  {
    && |t| == 36
    && t[14] == '7'
    && (forall i | 0 <= i < 36 :: if i in {8, 13, 18, 23} then t[i] == '-' else LowerHex(t[i]))
  }

  predicate ValidIncarnation(bytes: Bytes)
  {
    |bytes| == INCARNATION_TEXT_BYTES && bytes[36] == '\n' && CanonicalUuid(bytes[..36])
  }

  /** A written reservation reads back as itself, and no proper part of it reads as anything. */
  lemma NextTextReads(n: nat)
    requires n <= MAX_U64
    ensures ReadNext(NextText(n)) == Some(n)
    ensures forall k | 0 <= k < |NextText(n)| :: ReadNext(NextText(n)[..k]) == None
  {
    PrintValue(n);
    PrintFitsU64(n);
    PrintParse(n);
    var t := NextText(n);
    assert t[..Min(|t|, 22)] == t;
    assert t[..|t| - 1] == Print(n);
    forall k | 0 <= k < |t| ensures ReadNext(t[..k]) == None {
      assert t[..k][..Min(k, 22)] == t[..Min(k, 22)];
      if k > 0 {
        assert t[..Min(k, 22)][Min(k, 22) - 1] == Print(n)[Min(k, 22) - 1];
      }
    }
  }

  /** Unless it begins with a plus sign, a text is read as a number exactly if it is what is written for that number. */
  lemma ReadNextExact(bytes: Bytes, n: nat)
    requires bytes != [] ==> bytes[0] != '+'
    ensures ReadNext(bytes) == Some(n) <==> n <= MAX_U64 && bytes == NextText(n)
  {
    var text := bytes[..Min(|bytes|, 22)];
    if n <= MAX_U64 && bytes == NextText(n) {
      NextTextReads(n);
    } else if 1 < |text| <= 21 && text[|text| - 1] == '\n' {
      var value := text[..|text| - 1];
      assert text == bytes && bytes == value + "\n";
      if |value| == 1 || value[0] != '0' { ParseExact(value, n); }
    }
  }

  /** With a plus sign, any digits are read, leading zeros too. */
  lemma ReadNextPlus(digits: Bytes, n: nat)
    ensures ReadNext(['+'] + digits + "\n") == Some(n) <==>
              0 < |digits| <= 19 && AllDigits(digits) && Value(digits) == n && n <= MAX_U64
  {
    hide AllDigits, Value;
    var bytes := ['+'] + digits + "\n";
    var text := bytes[..Min(|bytes|, 22)];
    if |digits| <= 19 {
      var value := ['+'] + digits;
      assert text == bytes && text[..|text| - 1] == value;
      PlusParses(digits, n);
    } else {
      assert |text| == 22;
    }
  }

  lemma PlusParses(digits: Bytes, n: nat)
    ensures ParseU64(['+'] + digits) == Some(n) <==>
              0 < |digits| && AllDigits(digits) && Value(digits) == n && n <= MAX_U64
  {
    if digits == [] {
      assert !AllDigits(['+'] + digits) by { assert (['+'] + digits)[0] == '+'; }
    } else {
      assert (['+'] + digits)[1..] == digits;
    }
  }

  const SEGMENT_PREFIX: string := "events-"
  const SEGMENT_SUFFIX: string := ".jsonl"

  function SegmentName(n: nat): string { SEGMENT_PREFIX + Print(n) + SEGMENT_SUFFIX }

  function ParseSegmentName(name: string): Option<nat>
  {
    if !(SEGMENT_PREFIX <= name) then None else
    var rest := name[|SEGMENT_PREFIX|..];
    if |rest| < |SEGMENT_SUFFIX| || rest[|rest| - |SEGMENT_SUFFIX|..] != SEGMENT_SUFFIX then None else
    var number := rest[..|rest| - |SEGMENT_SUFFIX|];
    if |number| == 0 || (|number| > 1 && number[0] == '0') then None else ParseU64(number)
  }

  /** Unless its number has a plus sign, a name is taken for a segment exactly if it is that segment's name. */
  lemma SegmentNameExact(name: string, n: nat)
    requires |name| > |SEGMENT_PREFIX| ==> name[|SEGMENT_PREFIX|] != '+'
    ensures ParseSegmentName(name) == Some(n) <==> n <= MAX_U64 && name == SegmentName(n)
  {
    if n <= MAX_U64 && name == SegmentName(n) {
      SegmentNameRoundTrip(n);
    } else if SEGMENT_PREFIX <= name {
      var rest := name[|SEGMENT_PREFIX|..];
      assert name == SEGMENT_PREFIX + rest;
      if |rest| > |SEGMENT_SUFFIX| && rest[|rest| - |SEGMENT_SUFFIX|..] == SEGMENT_SUFFIX {
        var number := rest[..|rest| - |SEGMENT_SUFFIX|];
        assert rest == number + SEGMENT_SUFFIX && name == SEGMENT_PREFIX + number + SEGMENT_SUFFIX;
        if |number| == 1 || number[0] != '0' { ParseExact(number, n); }
      }
    }
  }

  /** Two names of one segment: a plus sign is accepted. */
  lemma PlusSignAccepted()
    ensures ParseSegmentName("events-+5.jsonl") == Some(5) == ParseSegmentName("events-5.jsonl")
    ensures ReadNext("+5\n") == Some(5) == ReadNext("5\n")
  {
    assert "5"[..0] == [] && Value("5") == 5;
    assert "events-+5.jsonl" == SEGMENT_PREFIX + "+5" + SEGMENT_SUFFIX;
    assert "events-5.jsonl" == SEGMENT_PREFIX + "5" + SEGMENT_SUFFIX;
    var a, b := "events-+5.jsonl"[7..], "events-5.jsonl"[7..];
    assert a == "+5.jsonl" && a[2..] == SEGMENT_SUFFIX && a[..2] == "+5" && "+5"[1..] == "5";
    assert b == "5.jsonl" && b[1..] == SEGMENT_SUFFIX && b[..1] == "5";
    assert "+5\n"[..3] == "+5\n" && "+5\n"[..2] == "+5" && "5\n"[..2] == "5\n" && "5\n"[..1] == "5";
  }

  // ----- identities -----

  function HexDigit(d: nat): char
    requires d < 16
  {
    if d < 10 then ('0' as int + d) as char else ('a' as int + d - 10) as char
  }

  /** The 128 bits of a UUID, four at a time; the thirteenth four are its version. */
  predicate IsUuid7(n: seq<nat>) { |n| == 32 && (forall i | 0 <= i < 32 :: n[i] < 16) && n[12] == 7 }

  /** Which four bits the text of a UUID has at a place. */
  function BitsAt(i: nat): nat
  {
    i - (if i > 23 then 4 else if i > 18 then 3 else if i > 13 then 2 else if i > 8 then 1 else 0)
  }

  /** Groups of 8, 4, 4, 4 and 12 hexadecimal digits. */
  function UuidText(n: seq<nat>): (t: Bytes)
    requires IsUuid7(n)
    ensures |t| == 36
  {
    seq(36, i requires 0 <= i < 36 => if i in {8, 13, 18, 23} then '-' else HexDigit(n[BitsAt(i)]))
  }

  function HexValue(c: char): nat
    requires LowerHex(c)
  {
    if c <= '9' then c as int - '0' as int else c as int - 'a' as int + 10
  }

  function PlaceOf(k: nat): nat
  {
    k + (if k >= 20 then 4 else if k >= 16 then 3 else if k >= 12 then 2 else if k >= 8 then 1 else 0)
  }

  /** The texts that are accepted as identities are exactly the texts of version 7 UUIDs. */
  lemma CanonicalIff(t: Bytes)
    ensures CanonicalUuid(t) <==> exists n :: IsUuid7(n) && t == UuidText(n)
  {
    if CanonicalUuid(t) {
      var n := seq(32, k requires 0 <= k < 32 => HexValue(t[PlaceOf(k)]));
      assert n[12] == HexValue(t[14]) == 7;
      assert IsUuid7(n);
      forall i | 0 <= i < 36 ensures t[i] == UuidText(n)[i] {
        if i !in {8, 13, 18, 23} {
          assert PlaceOf(BitsAt(i)) == i && BitsAt(i) < 32;
        }
      }
      assert t == UuidText(n);
    }
    if n :| IsUuid7(n) && t == UuidText(n) {
      forall i | 0 <= i < 36 ensures if i in {8, 13, 18, 23} then t[i] == '-' else LowerHex(t[i]) {}
      assert BitsAt(14) == 12;
    }
  }

  /** A segment's file name is found again by its number, so distinct numbers have distinct names. */
  lemma SegmentNameRoundTrip(n: nat)
    requires n <= MAX_U64
    ensures ParseSegmentName(SegmentName(n)) == Some(n)
  {
    PrintValue(n);
    PrintParse(n);
    var name := SegmentName(n);
    assert name[..|SEGMENT_PREFIX|] == SEGMENT_PREFIX;
    var rest := name[|SEGMENT_PREFIX|..];
    assert rest == Print(n) + SEGMENT_SUFFIX;
    assert rest[..|rest| - |SEGMENT_SUFFIX|] == Print(n);
  }
}
