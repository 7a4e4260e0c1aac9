/** The canonical binary encoding of programme details and of revision material, and its decoder. */
module MetadataCodec {
  import opened Basics
  import opened CatalogMetadata

  const METADATA_PREFIX: Bytes := [0x53, 0x5a, 0x4d, 0x45, 0x54, 0x41, 0x31]   // SZMETA1

  // ----- Numbers and texts

  function PrintU16(n: nat): Bytes { [n / 0x100 % 0x100, n % 0x100] }
  function PrintU32(n: nat): Bytes { PrintU16(n / 0x10000) + PrintU16(n) }
  function PrintText(text: Bytes): Bytes { PrintU32(|text|) + text }

  type Reader<!T> = Bytes -> Option<(T, Bytes)>

  function ReadU16(s: Bytes): Option<(nat, Bytes)> {
    if |s| < 2 then None else Some((Number(s[0], s[1]), s[2..]))
  }

  function Number(high: int, low: int): int { if high == 0 then low else high * 0x100 + low }

  function ReadU32(s: Bytes): Option<(nat, Bytes)> {
    if |s| < 4 then None else Some((Number(Number(Number(s[0], s[1]), s[2]), s[3]), s[4..]))
  }

  function ReadText(s: Bytes, maximum: nat): Option<(Bytes, Bytes)> {
    var size := ReadU32(s);
    if size.None? then None
    else
      var (n, rest) := size.value;
      if n > maximum || n > |rest| || !ValidUtf8(rest[..n]) then None else Some((rest[..n], rest[n..]))
  }

  lemma U16Back(n: nat, rest: Bytes)
    requires n < 0x10000
    ensures ReadU16(PrintU16(n) + rest) == Some((n, rest))
  {
    assert (PrintU16(n) + rest)[2..] == rest;
  }

  lemma U32Digits(n: nat)
    requires n < 0x1_0000_0000
    ensures Number(Number(Number(n / 0x10000 / 0x100 % 0x100, n / 0x10000 % 0x100), n / 0x100 % 0x100), n % 0x100) == n
  {
    assert n / 0x10000 / 0x100 < 0x100;
    assert n == n / 0x10000 * 0x10000 + n / 0x100 % 0x100 * 0x100 + n % 0x100;
  }

  lemma U32Back(n: nat, rest: Bytes)
    requires n < 0x1_0000_0000
    ensures ReadU32(PrintU32(n) + rest) == Some((n, rest))
  {
    U32Digits(n);
    assert (PrintU32(n) + rest)[4..] == rest;
  }

  lemma TextBack(text: Bytes, maximum: nat, rest: Bytes)
    requires ValidText(text, maximum) && maximum < 0x1_0000_0000
    ensures ReadText(PrintText(text) + rest, maximum) == Some((text, rest))
  {
    Associates(PrintU32(|text|), text, rest);
    U32Back(|text|, text + rest);
    assert (text + rest)[..|text|] == text && (text + rest)[|text|..] == rest;
  }

  // ----- Lists

  function PrintAll<T>(write: T -> Bytes, xs: seq<T>): Bytes {
    if xs == [] then [] else write(xs[0]) + PrintAll(write, xs[1..])
  }

  function ReadAll<T>(parse: Reader<T>, n: nat, s: Bytes): Option<(seq<T>, Bytes)> {
    if n == 0 then Some(([], s))
    else
      var first := parse(s);
      if first.None? then None
      else
        var more := ReadAll(parse, n - 1, first.value.1);
        if more.None? then None else Some(([first.value.0] + more.value.0, more.value.1))
  }

  /** The reader undoes the printer on this value, whatever follows. */
  ghost predicate Undoes<T(!new)>(parse: Reader<T>, write: T -> Bytes, x: T) {
    forall rest: Bytes :: parse(write(x) + rest) == Some((x, rest))
  }

  lemma {:induction false} AllBack<T(!new)>(parse: Reader<T>, write: T -> Bytes, xs: seq<T>, rest: Bytes)
    requires forall i | 0 <= i < |xs| :: Undoes(parse, write, xs[i])
    ensures ReadAll(parse, |xs|, PrintAll(write, xs) + rest) == Some((xs, rest))
    decreases |xs|
  {
    if xs == [] {
      assert [] + rest == rest;
    } else {
      assert Undoes(parse, write, xs[0]);
      AllBack(parse, write, xs[1..], rest);
      Associates(write(xs[0]), PrintAll(write, xs[1..]), rest);
      assert xs == [xs[0]] + xs[1..];
    }
  }

  /** A count and then the items. */
  function PrintList<T>(write: T -> Bytes, xs: seq<T>): Bytes { PrintU16(|xs|) + PrintAll(write, xs) }

  function ReadList<T>(parse: Reader<T>, maximum: nat, s: Bytes): Option<(seq<T>, Bytes)> {
    var count := ReadU16(s);
    if count.None? || count.value.0 > maximum then None else ReadAll(parse, count.value.0, count.value.1)
  }

  lemma ListBack<T(!new)>(parse: Reader<T>, write: T -> Bytes, xs: seq<T>, maximum: nat, rest: Bytes)
    requires |xs| <= maximum < 0x10000 && forall i | 0 <= i < |xs| :: Undoes(parse, write, xs[i])
    ensures ReadList(parse, maximum, PrintList(write, xs) + rest) == Some((xs, rest))
  {
    Associates(PrintU16(|xs|), PrintAll(write, xs), rest);
    U16Back(|xs|, PrintAll(write, xs) + rest);
    AllBack(parse, write, xs, rest);
  }

  // ----- The parts of a description

  function PrintItem(item: Item): Bytes { PrintText(item.heading) + PrintText(item.body) }

  function ReadItem(s: Bytes): Option<(Item, Bytes)> {
    var heading := ReadText(s, MAX_HEADING_BYTES);
    if heading.None? then None
    else
      var body := ReadText(heading.value.1, MAX_BODY_BYTES);
      if body.None? then None else Some((Item(heading.value.0, body.value.0), body.value.1))
  }

  function PrintGenre(g: Genre): Bytes { [g.level1, g.level2, g.user1, g.user2] }

  function ReadGenre(s: Bytes): Option<(Genre, Bytes)> {
    if |s| < 4 then None else Some((Genre(s[0], s[1], s[2], s[3]), s[4..]))
  }

  function PrintVideo(video: Option<Video>): Bytes {
    if video.None? then [0] else [1, video.value.streamContent, video.value.componentType]
  }

  function ReadVideo(s: Bytes): Option<(Option<Video>, Bytes)> {
    if s == [] || s[0] > 1 then None
    else if s[0] == 0 then Some((None, s[1..]))
    else if |s| < 3 then None
    else Some((Some(Video(s[1], s[2])), s[3..]))
  }

  function PrintLanguage(language: Bytes): Bytes { language }

  function ReadLanguage(s: Bytes): Option<(Bytes, Bytes)> {
    if |s| < 3 || !ValidLanguage(s[..3]) then None else Some((s[..3], s[3..]))
  }

  function PrintAudio(a: Audio): Bytes {
    [a.componentType, a.componentTag, if a.main then 1 else 0] + PrintU32(a.samplingRate) +
    [|a.languages| % 0x100] + PrintAll(PrintLanguage, a.languages)
  }

  function ReadAudio(s: Bytes): Option<(Audio, Bytes)> {
    if |s| < 7 then None
    else
      var rate := ReadU32(s[3..7]).value.0;
      if s[2] > 1 || !ValidSamplingRate(rate) || |s| < 8 || s[7] > MAX_AUDIO_LANGUAGES then None
      else
        var languages := ReadAll(ReadLanguage, s[7], s[8..]);
        if languages.None? then None
        else Some((Audio(s[0], s[1], s[2] == 1, rate, languages.value.0), languages.value.1))
  }

  lemma ItemBack(item: Item)
    requires ValidItem(item)
    ensures Undoes(ReadItem, PrintItem, item)
  {
    hide ValidUtf8, ReadText, PrintText;
    forall rest: Bytes ensures ReadItem(PrintItem(item) + rest) == Some((item, rest)) {
      Associates(PrintText(item.heading), PrintText(item.body), rest);
      TextBack(item.heading, MAX_HEADING_BYTES, PrintText(item.body) + rest);
      TextBack(item.body, MAX_BODY_BYTES, rest);
    }
  }

  lemma GenreBack(g: Genre)
    ensures Undoes(ReadGenre, PrintGenre, g)
  {
    forall rest: Bytes ensures ReadGenre(PrintGenre(g) + rest) == Some((g, rest)) {
      assert (PrintGenre(g) + rest)[4..] == rest;
    }
  }

  lemma VideoBack(video: Option<Video>, rest: Bytes)
    ensures ReadVideo(PrintVideo(video) + rest) == Some((video, rest))
  {
    assert (PrintVideo(video) + rest)[|PrintVideo(video)|..] == rest;
  }

  lemma LanguageBack(language: Bytes)
    requires ValidLanguage(language)
    ensures Undoes(ReadLanguage, PrintLanguage, language)
  {
    assert |language| == 3;
    forall rest: Bytes ensures ReadLanguage(PrintLanguage(language) + rest) == Some((language, rest)) {
      assert (language + rest)[..3] == language && (language + rest)[3..] == rest;
    }
  }

  lemma AudioBack(a: Audio)
    requires ValidAudio(a)
    ensures Undoes(ReadAudio, PrintAudio, a)
  {
    forall rest: Bytes ensures ReadAudio(PrintAudio(a) + rest) == Some((a, rest)) { AudioBackBefore(a, rest); }
  }

  lemma AudioBackBefore(a: Audio, rest: Bytes)
    requires ValidAudio(a)
    ensures ReadAudio(PrintAudio(a) + rest) == Some((a, rest))
  {
    hide ValidLanguage, ReadLanguage, PrintU32, ReadU32;
    var languages := PrintAll(PrintLanguage, a.languages);
    var s := PrintAudio(a) + rest;
    assert |PrintU32(a.samplingRate)| == 4 by { U32Size(a.samplingRate); }
    assert s[3..7] == PrintU32(a.samplingRate) && s[8..] == languages + rest;
    assert PrintU32(a.samplingRate) + [] == PrintU32(a.samplingRate);
    U32Back(a.samplingRate, []);
    forall i | 0 <= i < |a.languages| ensures Undoes(ReadLanguage, PrintLanguage, a.languages[i]) {
      LanguageBack(a.languages[i]);
    }
    AllBack(ReadLanguage, PrintLanguage, a.languages, rest);
  }

  lemma U32Size(n: nat)
    ensures |PrintU32(n)| == 4
  {
  }

  // ----- Encoding and decoding

  function Print(m: Metadata): Bytes {
    METADATA_PREFIX + (PrintList(PrintItem, m.extended) +
      (PrintList(PrintGenre, m.genres) + (PrintVideo(m.video) + PrintList(PrintAudio, m.audios))))
  }

  /** What a reader makes of the bytes, before it asks whether they are canonical. */
  function Parse(s: Bytes): Option<Metadata> {
    if !(METADATA_PREFIX <= s) then None
    else
      var extended := ReadList(ReadItem, MAX_EXTENDED_ITEMS, s[|METADATA_PREFIX|..]);
      if extended.None? then None
      else
        var genres := ReadList(ReadGenre, MAX_GENRES, extended.value.1);
        if genres.None? then None
        else
          var video := ReadVideo(genres.value.1);
          if video.None? then None
          else
            var audios := ReadList(ReadAudio, MAX_AUDIOS, video.value.1);
            if audios.None? || audios.value.1 != [] then None
            else Some(Metadata(extended.value.0, genres.value.0, video.value.0, audios.value.0))
  }

  function Encode(m: Metadata): Option<Bytes> {
    var normal := Normalize(m);
    if normal.None? then None
    else if normal.value.Empty() then Some([])
    else if |Print(normal.value)| > MAX_METADATA_BYTES then None
    else Some(Print(normal.value))
  }

  const NOTHING := Metadata([], [], None, [])

  function Decode(s: Bytes): Option<Metadata> {
    if s == [] then Some(NOTHING)
    else if |s| > MAX_METADATA_BYTES then None
    else
      var parsed := Parse(s);
      if parsed.None? || Encode(parsed.value) != Some(s) then None else parsed
  }

  lemma ParseBack(m: Metadata)
    requires Valid(m)
    ensures Parse(Print(m)) == Some(m)
  {
    hide ValidUtf8, ValidItem, ValidAudio, ReadItem, PrintItem, ReadAudio, PrintAudio, ReadList, PrintList, ReadVideo, PrintVideo;
    forall i | 0 <= i < |m.extended| ensures Undoes(ReadItem, PrintItem, m.extended[i]) { ItemBack(m.extended[i]); }
    forall i | 0 <= i < |m.genres| ensures Undoes(ReadGenre, PrintGenre, m.genres[i]) { GenreBack(m.genres[i]); }
    forall i | 0 <= i < |m.audios| ensures Undoes(ReadAudio, PrintAudio, m.audios[i]) { AudioBack(m.audios[i]); }
    var audios := PrintList(PrintAudio, m.audios);
    var video := PrintVideo(m.video) + audios;
    var genres := PrintList(PrintGenre, m.genres) + video;
    assert audios + [] == audios;
    ListBack(ReadItem, PrintItem, m.extended, MAX_EXTENDED_ITEMS, genres);
    ListBack(ReadGenre, PrintGenre, m.genres, MAX_GENRES, video);
    VideoBack(m.video, audios);
    ListBack(ReadAudio, PrintAudio, m.audios, MAX_AUDIOS, []);
    assert Print(m)[|METADATA_PREFIX|..] == PrintList(PrintItem, m.extended) + genres;
  }

  lemma EmptyStays(m: Metadata)
    requires Valid(m) && Normalize(m).value.Empty()
    ensures Normalize(m) == Some(NOTHING)
  {
  }

  /** Whenever encoding succeeds, decoding the result succeeds and returns the normal form. */
  lemma DecodeUndoesEncode(m: Metadata)
    requires Encode(m).Some?
    ensures Decode(Encode(m).value) == Normalize(m)
  {
    hide Print, Parse, Valid;
    var normal := Normalize(m).value;
    ValidOfNormal(m);
    if normal.Empty() {
      EmptyStays(m);
    } else {
      PrintIsNotEmpty(normal);
      NormalizeTwice(m);
      ParseBack(normal);
    }
  }

  lemma PrintIsNotEmpty(m: Metadata)
    ensures Print(m) != []
  {
  }

  lemma ValidOfNormal(m: Metadata)
    requires Normalize(m).Some?
    ensures Valid(m) && Valid(Normalize(m).value)
  {
    NormalizeIsNormal(m);
  }

  /** The decoder accepts nothing but encodings: what it returns encodes back to the same bytes and is a
      normal form. */
  lemma EncodeUndoesDecode(s: Bytes)
    requires Decode(s).Some?
    ensures Encode(Decode(s).value) == Some(s) && Normalize(Decode(s).value) == Decode(s)
  {
    hide Print, Parse;
    if s != [] { DecodeUndoesEncode(Decode(s).value); }
  }

  /** Equal bytes mean equal normal forms. */
  lemma EncodingIsInjective(m: Metadata, n: Metadata)
    requires Encode(m).Some? && Encode(m) == Encode(n)
    ensures Normalize(m) == Normalize(n)
  {
    DecodeUndoesEncode(m);
    DecodeUndoesEncode(n);
  }

  // ----- The operations

  lemma {:induction false} PrintAllJoin<T>(write: T -> Bytes, xs: seq<T>, x: T)
    ensures PrintAll(write, xs + [x]) == PrintAll(write, xs) + write(x)
  {
    if xs == [] {
      assert [x][1..] == [] && write(x) + [] == write(x) && [] + [x] == [x];
    } else {
      assert (xs + [x])[1..] == xs[1..] + [x];
      PrintAllJoin(write, xs[1..], x);
      Associates(write(xs[0]), PrintAll(write, xs[1..]), write(x));
    }
  }

  /** Appends a count and the items to the output. */
  method WriteList<T>(write: T -> Bytes, xs: seq<T>, before: Bytes) returns (output: Bytes)
    ensures output == before + PrintList(write, xs)
  {
    output := before + PrintU16(|xs|);
    ghost var head := output;
    assert xs[..0] == [] && head + [] == head;
    for i := 0 to |xs|
      invariant output == head + PrintAll(write, xs[..i])
    {
      PrintAllJoin(write, xs[..i], xs[i]);
      assert xs[..i + 1] == xs[..i] + [xs[i]];
      Associates(head, PrintAll(write, xs[..i]), write(xs[i]));
      output := output + write(xs[i]);
    }
    assert xs[..|xs|] == xs;
    Associates(before, PrintU16(|xs|), PrintAll(write, xs));
  }

  /** `EncodeMetadataV1`. */
  method EncodeMetadata(m: Metadata) returns (r: Option<Bytes>)
    ensures r == Encode(m)
  {
    hide Normalize, PrintItem, PrintGenre, PrintAudio, PrintVideo, PrintList;
    var normal := NormalizeMetadata(m);
    if normal.None? { return None; }
    var n := normal.value;
    if n.Empty() { return Some([]); }
    var output := METADATA_PREFIX;
    output := WriteList(PrintItem, n.extended, output);
    output := WriteList(PrintGenre, n.genres, output);
    output := output + PrintVideo(n.video);
    output := WriteList(PrintAudio, n.audios, output);
    PrintIsAppended(n);
    if |output| > MAX_METADATA_BYTES { return None; }
    r := Some(output);
  }

  lemma PrintIsAppended(n: Metadata)
    ensures Print(n) == METADATA_PREFIX + PrintList(PrintItem, n.extended) + PrintList(PrintGenre, n.genres) +
      PrintVideo(n.video) + PrintList(PrintAudio, n.audios)
  {
    hide PrintItem, PrintGenre, PrintAudio, PrintVideo, PrintList;
    var e, g, v, a := PrintList(PrintItem, n.extended), PrintList(PrintGenre, n.genres), PrintVideo(n.video),
      PrintList(PrintAudio, n.audios);
    Associates(METADATA_PREFIX, e, g + (v + a));
    Associates(METADATA_PREFIX + e, g, v + a);
    Associates(METADATA_PREFIX + e + g, v, a);
  }

  /** Reads a bounded count and that many items. */
  method ReadItems<T>(parse: Reader<T>, maximum: nat, s: Bytes) returns (r: Option<(seq<T>, Bytes)>)
    ensures r == ReadList(parse, maximum, s)
  {
    var count := ReadU16(s);
    if count.None? || count.value.0 > maximum { return None; }
    var n, rest, items := count.value.0, count.value.1, [];
    ReadNothing(ReadAll(parse, n, rest));
    for i := 0 to n
      invariant ReadList(parse, maximum, s) == Collected(items, ReadAll(parse, n - i, rest))
    {
      var next := parse(rest);
      if next.None? { return None; }
      CollectedTwice(items, next.value.0, ReadAll(parse, n - i - 1, next.value.1));
      items, rest := items + [next.value.0], next.value.1;
    }
    assert items + [] == items;
    r := Some((items, rest));
  }

  function Collected<T>(items: seq<T>, r: Option<(seq<T>, Bytes)>): Option<(seq<T>, Bytes)> {
    if r.None? then None else Some((items + r.value.0, r.value.1))
  }

  lemma ReadNothing<T>(r: Option<(seq<T>, Bytes)>)
    ensures Collected([], r) == r
  {
    if r.Some? { assert [] + r.value.0 == r.value.0; }
  }

  lemma CollectedTwice<T>(items: seq<T>, item: T, r: Option<(seq<T>, Bytes)>)
    ensures Collected(items + [item], r) == Collected(items, Collected([item], r))
  {
    if r.Some? { Associates(items, [item], r.value.0); }
  }

  /** `DecodeMetadataV1`: the parts in order, nothing behind them, and the bytes an encoder would write. */
  method DecodeMetadata(s: Bytes) returns (r: Option<Metadata>)
    ensures r == Decode(s)
  {
    hide ReadList, Encode, ReadVideo;
    if s == [] { return Some(NOTHING); }
    if |s| > MAX_METADATA_BYTES || !(METADATA_PREFIX <= s) { return None; }
    var extended := ReadItems(ReadItem, MAX_EXTENDED_ITEMS, s[|METADATA_PREFIX|..]);
    if extended.None? { return None; }
    var genres := ReadItems(ReadGenre, MAX_GENRES, extended.value.1);
    if genres.None? { return None; }
    var video := ReadVideo(genres.value.1);
    if video.None? { return None; }
    var audios := ReadItems(ReadAudio, MAX_AUDIOS, video.value.1);
    if audios.None? || audios.value.1 != [] { return None; }
    var m := Metadata(extended.value.0, genres.value.0, video.value.0, audios.value.0);
    var canonical := EncodeMetadata(m);
    r := if canonical == Some(s) then Some(m) else None;
  }
}
