/** The material a programme revision is hashed from, in its two versions. */
module CatalogRevision {
  import opened Basics
  import opened CatalogMetadata
  import opened MetadataCodec

  const PREFIX_V1: Bytes := [0x53, 0x5a, 0x43, 0x41, 0x54, 0x52, 0x45, 0x56, 0x31]   // SZCATREV1
  const PREFIX_V2: Bytes := [0x53, 0x5a, 0x43, 0x41, 0x54, 0x52, 0x45, 0x56, 0x32]   // SZCATREV2
  const MAX_TITLE_BYTES := 4_096
  const MAX_DESCRIPTION_BYTES := 65_536

  type Int64 = v: int | -0x8000_0000_0000_0000 <= v <= 0x7fff_ffff_ffff_ffff

  datatype Revision = Revision(
    start: Option<Int64>, duration: Option<Int64>, title: Option<Bytes>, description: Option<Bytes>,
    freeAccess: Byte, validation: Byte, metadata: Metadata)
  {
    /** The fields the first version covers. */
    function Base(): Revision { this.(metadata := NOTHING) }

    predicate Valid() {
      && (duration.Some? ==> duration.value > 0) && freeAccess <= 2 && 1 <= validation <= 3
      && (title.Some? ==> ValidText(title.value, MAX_TITLE_BYTES))
      && (description.Some? ==> ValidText(description.value, MAX_DESCRIPTION_BYTES))
    }
  }

  // ----- Optional fields

  /** Two's complement. */
  function Unsigned(v: Int64): nat { if v < 0 then v + 0x1_0000_0000_0000_0000 else v }
  function Signed(n: nat): int { if n >= 0x8000_0000_0000_0000 then n - 0x1_0000_0000_0000_0000 else n }

  function PrintInt64(v: Int64): Bytes { PrintU32(Unsigned(v) / 0x1_0000_0000) + PrintU32(Unsigned(v) % 0x1_0000_0000) }

  function PrintOptionalInt64(v: Option<Int64>): Bytes { if v.None? then [0] else [1] + PrintInt64(v.value) }

  function PrintOptionalText(text: Option<Bytes>): Bytes { if text.None? then [0] else [1] + PrintText(text.value) }

  function ReadOptionalInt64(s: Bytes): Option<(Option<int>, Bytes)> {
    if s == [] then None
    else if s[0] == 0 then Some((None, s[1..]))
    else
      var high := ReadU32(s[1..]);
      if high.None? then None
      else
        var low := ReadU32(high.value.1);
        if low.None? then None
        else Some((Some(Signed(high.value.0 * 0x1_0000_0000 + low.value.0)), low.value.1))
  }

  function ReadOptionalText(s: Bytes, maximum: nat): Option<(Option<Bytes>, Bytes)> {
    if s == [] then None
    else if s[0] == 0 then Some((None, s[1..]))
    else
      var text := ReadText(s[1..], maximum);
      if text.None? then None else Some((Some(text.value.0), text.value.1))
  }

  lemma OptionalInt64Back(v: Option<Int64>, rest: Bytes)
    ensures ReadOptionalInt64(PrintOptionalInt64(v) + rest) == Some((v, rest))
  {
    hide PrintU32, ReadU32;
    var s := PrintOptionalInt64(v) + rest;
    if v.Some? {
      var n := Unsigned(v.value);
      var low := PrintU32(n % 0x1_0000_0000) + rest;
      assert s[1..] == PrintU32(n / 0x1_0000_0000) + low;
      U32Back(n / 0x1_0000_0000, low);
      U32Back(n % 0x1_0000_0000, rest);
    } else {
      assert s[1..] == rest;
    }
  }

  lemma OptionalTextBack(text: Option<Bytes>, maximum: nat, rest: Bytes)
    requires (text.Some? ==> ValidText(text.value, maximum)) && maximum < 0x1_0000_0000
    ensures ReadOptionalText(PrintOptionalText(text) + rest, maximum) == Some((text, rest))
  {
    hide ValidUtf8, ReadText, PrintText;
    var s := PrintOptionalText(text) + rest;
    if text.Some? {
      assert s[1..] == PrintText(text.value) + rest;
      TextBack(text.value, maximum, rest);
    } else {
      assert s[1..] == rest;
    }
  }

  // ----- Version 1

  function PrintBase(r: Revision): Bytes {
    PREFIX_V1 + (PrintOptionalInt64(r.start) + (PrintOptionalInt64(r.duration) +
      (PrintOptionalText(r.title) + (PrintOptionalText(r.description) + [r.freeAccess, r.validation]))))
  }

  function EncodeV1(r: Revision): Option<Bytes> { if r.Valid() then Some(PrintBase(r)) else None }

  /** What the bytes of a first version say. */
  function ReadBase(s: Bytes): Option<Revision> {
    if !(PREFIX_V1 <= s) then None
    else
      var start := ReadOptionalInt64(s[|PREFIX_V1|..]);
      var duration := if start.None? then None else ReadOptionalInt64(start.value.1);
      var title := if duration.None? then None else ReadOptionalText(duration.value.1, MAX_TITLE_BYTES);
      var description := if title.None? then None else ReadOptionalText(title.value.1, MAX_DESCRIPTION_BYTES);
      if description.None? || |description.value.1| != 2 then None
      else
        var (from, long) := (start.value.0, duration.value.0);
        if (from.Some? && !IsInt64(from.value)) || (long.Some? && !IsInt64(long.value)) then None
        else Some(Revision(AsInt64(from), AsInt64(long), title.value.0, description.value.0,
                           description.value.1[0], description.value.1[1], NOTHING))
  }

  predicate IsInt64(v: int) { -0x8000_0000_0000_0000 <= v <= 0x7fff_ffff_ffff_ffff }

  function AsInt64(v: Option<int>): Option<Int64>
    requires v.Some? ==> IsInt64(v.value)
  {
    if v.None? then None else Some(v.value)
  }

  lemma BaseBack(r: Revision)
    requires r.Valid()
    ensures ReadBase(PrintBase(r)) == Some(r.Base())
  {
    hide ValidUtf8, ReadOptionalInt64, PrintOptionalInt64, ReadOptionalText, PrintOptionalText;
    var description := PrintOptionalText(r.description) + [r.freeAccess, r.validation];
    var title := PrintOptionalText(r.title) + description;
    var duration := PrintOptionalInt64(r.duration) + title;
    OptionalInt64Back(r.start, duration);
    OptionalInt64Back(r.duration, title);
    OptionalTextBack(r.title, MAX_TITLE_BYTES, description);
    OptionalTextBack(r.description, MAX_DESCRIPTION_BYTES, [r.freeAccess, r.validation]);
    assert PrintBase(r)[|PREFIX_V1|..] == PrintOptionalInt64(r.start) + duration;
  }

  /** Equal first versions mean equal fields. */
  lemma V1IsInjective(r: Revision, t: Revision)
    requires EncodeV1(r).Some? && EncodeV1(r) == EncodeV1(t)
    ensures r.Base() == t.Base()
  {
    hide PrintBase, ReadBase;
    BaseBack(r);
    BaseBack(t);
  }

  // ----- Version 2

  /** A byte string behind its length. */
  function Sized(s: Bytes): Bytes { PrintU32(|s|) + s }

  function EncodeV2(r: Revision): Option<Bytes> {
    var base := EncodeV1(r);
    var details := Encode(r.metadata);
    if base.None? || details.None? || details.value == [] then None
    else Some(PREFIX_V2 + (Sized(base.value) + Sized(details.value)))
  }

  lemma BaseSize(r: Revision)
    requires r.Valid()
    ensures |PrintBase(r)| < 0x1_0000_0000
  {
    hide ValidUtf8;
  }

  lemma SizedIsInjective(a: Bytes, b: Bytes, more: Bytes, other: Bytes)
    requires |a| < 0x1_0000_0000 && |b| < 0x1_0000_0000 && Sized(a) + more == Sized(b) + other
    ensures a == b && more == other
  {
    hide PrintU32, ReadU32;
    Associates(PrintU32(|a|), a, more);
    Associates(PrintU32(|b|), b, other);
    U32Back(|a|, a + more);
    U32Back(|b|, b + other);
    assert (a + more)[..|a|] == a && (b + other)[..|b|] == b;
    assert (a + more)[|a|..] == more && (b + other)[|b|..] == other;
  }

  /** Equal second versions mean equal fields and equal normal forms of the details. */
  lemma V2IsInjective(r: Revision, t: Revision)
    requires EncodeV2(r).Some? && EncodeV2(r) == EncodeV2(t)
    ensures r.Base() == t.Base() && Normalize(r.metadata) == Normalize(t.metadata)
  {
    hide PrintBase, Sized, Encode, Normalize;
    var (a, b) := (EncodeV1(r).value, EncodeV1(t).value);
    var (m, n) := (Encode(r.metadata).value, Encode(t.metadata).value);
    BaseSize(r);
    BaseSize(t);
    EncodedSize(r.metadata);
    EncodedSize(t.metadata);
    assert EncodeV2(r).value[|PREFIX_V2|..] == Sized(a) + Sized(m);
    assert EncodeV2(t).value[|PREFIX_V2|..] == Sized(b) + Sized(n);
    SizedIsInjective(a, b, Sized(m), Sized(n));
    assert Sized(m) + [] == Sized(m) && Sized(n) + [] == Sized(n);
    SizedIsInjective(m, n, [], []);
    V1IsInjective(r, t);
    EncodingIsInjective(r.metadata, t.metadata);
  }

  lemma EncodedSize(m: Metadata)
    requires Encode(m).Some?
    ensures |Encode(m).value| <= MAX_METADATA_BYTES
  {
    hide Print, Normalize;
  }

  // ----- What is hashed

  /** `HashRevision` up to the hash: the first version without details, the second with them. */
  function Hashed(r: Revision): Option<Bytes> { if r.metadata.Empty() then EncodeV1(r) else EncodeV2(r) }

  lemma VersionsDiffer(r: Revision, t: Revision)
    requires EncodeV1(r).Some? && EncodeV2(t).Some?
    ensures EncodeV1(r) != EncodeV2(t)
  {
    assert PREFIX_V1 <= EncodeV1(r).value && PREFIX_V2 <= EncodeV2(t).value;
    assert EncodeV1(r).value[8] == PREFIX_V1[8] && EncodeV2(t).value[8] == PREFIX_V2[8];
  }

  /** Two revisions are hashed from the same bytes exactly when their fields are equal and their details
      have the same normal form. */
  lemma HashedIsExact(r: Revision, t: Revision)
    requires Hashed(r).Some? && Hashed(t).Some?
    ensures Hashed(r) == Hashed(t) <==> r.Base() == t.Base() && Normalize(r.metadata) == Normalize(t.metadata)
  {
    hide EncodeV1, EncodeV2;
    if Hashed(r) == Hashed(t) {
      if r.metadata.Empty() && t.metadata.Empty() {
        V1OfBase(r, t);
        V1IsInjective(r, t);
      } else if r.metadata.Empty() {
        V2HasV1(t);
        VersionsDiffer(r, t);
      } else if t.metadata.Empty() {
        V2HasV1(r);
        VersionsDiffer(t, r);
      } else {
        V2IsInjective(r, t);
      }
    }
    if r.Base() == t.Base() && Normalize(r.metadata) == Normalize(t.metadata) {
      SameNormalSameHash(r, t);
    }
  }

  lemma V1OfBase(r: Revision, t: Revision)
    requires r.metadata.Empty() && t.metadata.Empty()
    ensures r.metadata == t.metadata == NOTHING
  {
  }

  lemma V2HasV1(r: Revision)
    requires EncodeV2(r).Some?
    ensures EncodeV1(r).Some? && !Normalize(r.metadata).value.Empty()
  {
  }

  lemma SameNormalSameHash(r: Revision, t: Revision)
    requires r.Base() == t.Base() && Normalize(r.metadata) == Normalize(t.metadata)
    requires Hashed(r).Some? && Hashed(t).Some?
    ensures Hashed(r) == Hashed(t)
  {
    hide Print, ValidUtf8, Valid;
  }

  // ----- The operations

  /** `EncodeRevisionV1`, field by field into the output. */
  method EncodeRevisionV1(r: Revision) returns (encoded: Option<Bytes>)
    ensures encoded == EncodeV1(r)
  {
    hide ValidUtf8, PrintOptionalInt64, PrintOptionalText;
    if r.duration.Some? && r.duration.value <= 0 { return None; }
    if r.freeAccess > 2 || r.validation < 1 || r.validation > 3 { return None; }
    var output := PREFIX_V1;
    output := output + PrintOptionalInt64(r.start);
    output := output + PrintOptionalInt64(r.duration);
    if r.title.Some? && !ValidText(r.title.value, MAX_TITLE_BYTES) { return None; }
    output := output + PrintOptionalText(r.title);
    if r.description.Some? && !ValidText(r.description.value, MAX_DESCRIPTION_BYTES) { return None; }
    output := output + PrintOptionalText(r.description);
    output := output + [r.freeAccess, r.validation];
    BaseIsAppended(r);
    encoded := Some(output);
  }

  lemma BaseIsAppended(r: Revision)
    ensures PrintBase(r) == PREFIX_V1 + PrintOptionalInt64(r.start) + PrintOptionalInt64(r.duration) +
      PrintOptionalText(r.title) + PrintOptionalText(r.description) + [r.freeAccess, r.validation]
  {
    hide PrintOptionalInt64, PrintOptionalText;
    var f, l, t, d := PrintOptionalInt64(r.start), PrintOptionalInt64(r.duration), PrintOptionalText(r.title),
      PrintOptionalText(r.description);
    var z: Bytes := [r.freeAccess, r.validation];
    Associates(PREFIX_V1, f, l + (t + (d + z)));
    Associates(PREFIX_V1 + f, l, t + (d + z));
    Associates(PREFIX_V1 + f + l, t, d + z);
    Associates(PREFIX_V1 + f + l + t, d, z);
  }

  /** `EncodeRevisionV2`. */
  method EncodeRevisionV2(r: Revision) returns (encoded: Option<Bytes>)
    ensures encoded == EncodeV2(r)
  {
    hide EncodeV1, Encode, Sized;
    var base := EncodeRevisionV1(r);
    if base.None? { return None; }
    var details := EncodeMetadata(r.metadata);
    if details.None? || details.value == [] { return None; }
    Associates(PREFIX_V2, Sized(base.value), Sized(details.value));
    encoded := Some(PREFIX_V2 + Sized(base.value) + Sized(details.value));
  }
}
