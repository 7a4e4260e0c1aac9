/** The canonical binary form of programme details: normalisation, encoding and decoding. */
module CatalogMetadata {
  import opened Basics
  import opened Ordering

  const MAX_METADATA_BYTES := 262_144
  const MAX_EXTENDED_ITEMS := 64
  const MAX_HEADING_BYTES := 4_096
  const MAX_BODY_BYTES := 65_536
  const MAX_GENRES := 64
  const MAX_AUDIOS := 16
  const MAX_AUDIO_LANGUAGES := 2

  datatype Item = Item(heading: Bytes, body: Bytes)
  datatype Genre = Genre(level1: Byte, level2: Byte, user1: Byte, user2: Byte)
  datatype Video = Video(streamContent: Byte, componentType: Byte)
  datatype Audio = Audio(componentType: Byte, componentTag: Byte, main: bool, samplingRate: nat, languages: seq<Bytes>)
  datatype Metadata = Metadata(extended: seq<Item>, genres: seq<Genre>, video: Option<Video>, audios: seq<Audio>)
  {
    predicate Empty() { extended == [] && genres == [] && video.None? && audios == [] }
  }

  // ----- Values

  /** UTF-8 as the language's own check defines it: no surrogates, no overlong forms. */
  predicate ValidUtf8(s: Bytes) {
    if s == [] then true
    else if s[0] < 0x80 then ValidUtf8(s[1..])
    else if 0xc2 <= s[0] <= 0xdf then |s| >= 2 && Trail(s[1], 0x80, 0xbf) && ValidUtf8(s[2..])
    else if 0xe0 <= s[0] <= 0xef then
      |s| >= 3 && Trail(s[2], 0x80, 0xbf) && ValidUtf8(s[3..]) &&
      Trail(s[1], if s[0] == 0xe0 then 0xa0 else 0x80, if s[0] == 0xed then 0x9f else 0xbf)
    else
      0xf0 <= s[0] <= 0xf4 && |s| >= 4 && Trail(s[2], 0x80, 0xbf) && Trail(s[3], 0x80, 0xbf) && ValidUtf8(s[4..]) &&
      Trail(s[1], if s[0] == 0xf0 then 0x90 else 0x80, if s[0] == 0xf4 then 0x8f else 0xbf)
  }

  predicate Trail(b: Byte, low: int, high: int) { low <= b <= high }

  predicate ValidText(s: Bytes, maximum: nat) { ValidUtf8(s) && |s| <= maximum }

  predicate ValidItem(item: Item) { ValidText(item.heading, MAX_HEADING_BYTES) && ValidText(item.body, MAX_BODY_BYTES) }

  predicate ValidSamplingRate(rate: nat) { rate in {16_000, 22_050, 24_000, 32_000, 44_100, 48_000} }

  /** jpn, eng, deu, fra, ita, rus, zho, kor, spa and etc. */
  predicate ValidLanguage(language: Bytes) {
    language in {
      [0x6a, 0x70, 0x6e], [0x65, 0x6e, 0x67], [0x64, 0x65, 0x75], [0x66, 0x72, 0x61], [0x69, 0x74, 0x61],
      [0x72, 0x75, 0x73], [0x7a, 0x68, 0x6f], [0x6b, 0x6f, 0x72], [0x73, 0x70, 0x61], [0x65, 0x74, 0x63]}
  }

  predicate ValidAudio(audio: Audio) {
    ValidSamplingRate(audio.samplingRate) && |audio.languages| <= MAX_AUDIO_LANGUAGES &&
    forall i | 0 <= i < |audio.languages| :: ValidLanguage(audio.languages[i])
  }

  predicate Valid(m: Metadata) {
    && |m.extended| <= MAX_EXTENDED_ITEMS && |m.genres| <= MAX_GENRES && |m.audios| <= MAX_AUDIOS
    && (forall item | item in m.extended :: ValidItem(item)) && (forall audio | audio in m.audios :: ValidAudio(audio))
  }

  // ----- Orders

  predicate ByteLess(a: Byte, b: Byte) { a < b }
  predicate TextLess(a: Bytes, b: Bytes) { LexLess(ByteLess, a, b) }

  predicate ItemLess(a: Item, b: Item) {
    if a.heading != b.heading then TextLess(a.heading, b.heading) else TextLess(a.body, b.body)
  }

  predicate GenreLess(a: Genre, b: Genre) {
    if a.level1 != b.level1 then a.level1 < b.level1
    else if a.level2 != b.level2 then a.level2 < b.level2
    else if a.user1 != b.user1 then a.user1 < b.user1
    else a.user2 < b.user2
  }

  predicate AudioLess(a: Audio, b: Audio) {
    if a.componentType != b.componentType then a.componentType < b.componentType
    else if a.componentTag != b.componentTag then a.componentTag < b.componentTag
    else if a.main != b.main then !a.main
    else if a.samplingRate != b.samplingRate then a.samplingRate < b.samplingRate
    else LexLess(TextLess, a.languages, b.languages)
  }

  lemma TextOrder()
    ensures StrictOrder(TextLess)
  {
    assert StrictOrder(ByteLess);
    LexIsStrict(ByteLess);
    assert forall a, b :: TextLess(a, b) == Lex(ByteLess)(a, b);
  }

  lemma ItemOrder()
    ensures StrictOrder(ItemLess)
  {
    hide TextLess;
    TextOrder();
  }

  lemma GenreOrder()
    ensures StrictOrder(GenreLess)
  {
  }

  lemma AudioOrder()
    ensures StrictOrder(AudioLess)
  {
    hide LexLess, TextLess;
    TextOrder();
    LexIsStrict(TextLess);
    assert forall a, b :: LexLess(TextLess, a, b) == Lex(TextLess)(a, b);
    AudioOrderGiven();
  }

  lemma AudioOrderGiven()
    requires StrictOrder(Lex(TextLess)) && forall a, b :: LexLess(TextLess, a, b) == Lex(TextLess)(a, b)
    ensures StrictOrder(AudioLess)
  {
    hide LexLess, TextLess;
    forall a, b, c | AudioLess(a, b) && AudioLess(b, c) ensures AudioLess(a, c) {
      assert LexLess(TextLess, a.languages, b.languages) && LexLess(TextLess, b.languages, c.languages) ==>
          LexLess(TextLess, a.languages, c.languages);
    }
    forall a, b ensures !AudioLess(a, a) && (a == b || AudioLess(a, b) || AudioLess(b, a)) {
      assert !LexLess(TextLess, a.languages, a.languages);
    }
  }

  // ----- Normal forms

  function NormalAudio(audio: Audio): Audio { audio.(languages := Canonical(TextLess, audio.languages)) }

  function NormalAudios(audios: seq<Audio>): seq<Audio> {
    if audios == [] then [] else [NormalAudio(audios[0])] + NormalAudios(audios[1..])
  }

  /** The normal form, or None when a limit or a value is wrong. */
  function Normalize(m: Metadata): Option<Metadata> {
    if !Valid(m) then None
    else Some(Metadata(Canonical(ItemLess, m.extended), Canonical(GenreLess, m.genres), m.video,
                       Canonical(AudioLess, NormalAudios(m.audios))))
  }

  ghost predicate NormalForm(m: Metadata) {
    && Valid(m) && Ascending(ItemLess, m.extended) && Ascending(GenreLess, m.genres) && Ascending(AudioLess, m.audios)
    && forall audio | audio in m.audios :: Ascending(TextLess, audio.languages)
  }

  lemma NormalAudioIsValid(audio: Audio)
    requires ValidAudio(audio)
    ensures ValidAudio(NormalAudio(audio)) && Ascending(TextLess, NormalAudio(audio).languages)
    ensures Ascending(TextLess, audio.languages) ==> NormalAudio(audio) == audio
  {
    hide TextLess, ValidLanguage;
    TextOrder();
    CanonicalAscends(TextLess, audio.languages);
    CanonicalOfItems(TextLess, audio.languages, audio.languages);
    var languages := NormalAudio(audio).languages;
    forall i | 0 <= i < |languages| ensures ValidLanguage(languages[i]) { assert languages[i] in audio.languages; }
  }

  lemma {:induction false} NormalAudiosAreValid(audios: seq<Audio>)
    requires forall audio | audio in audios :: ValidAudio(audio)
    ensures |NormalAudios(audios)| == |audios|
    ensures forall audio | audio in NormalAudios(audios) :: ValidAudio(audio) && Ascending(TextLess, audio.languages)
    ensures (forall audio | audio in audios :: Ascending(TextLess, audio.languages)) ==> NormalAudios(audios) == audios
  {
    hide TextLess, ValidAudio, NormalAudio;
    if audios != [] {
      NormalAudioIsValid(audios[0]);
      NormalAudiosAreValid(audios[1..]);
      assert audios == [audios[0]] + audios[1..];
    }
  }

  /** Normalising gives a normal form, and a normal form is left as it is. */
  lemma NormalizeIsNormal(m: Metadata)
    requires Valid(m)
    ensures NormalForm(Normalize(m).value)
    ensures NormalForm(m) ==> Normalize(m) == Some(m)
  {
    hide ItemLess, GenreLess, AudioLess, TextLess, ValidItem, ValidAudio;
    ItemOrder();
    GenreOrder();
    AudioOrder();
    CanonicalAscends(ItemLess, m.extended);
    CanonicalAscends(GenreLess, m.genres);
    NormalAudiosAreValid(m.audios);
    CanonicalAscends(AudioLess, NormalAudios(m.audios));
    CanonicalOfItems(ItemLess, m.extended, m.extended);
    CanonicalOfItems(GenreLess, m.genres, m.genres);
    CanonicalOfItems(AudioLess, m.audios, m.audios);
  }

  /** Normalisation is idempotent. */
  lemma NormalizeTwice(m: Metadata)
    requires Valid(m)
    ensures Normalize(Normalize(m).value) == Normalize(m)
  {
    NormalizeIsNormal(m);
    NormalizeIsNormal(Normalize(m).value);
  }

  /** Two valid descriptions have the same normal form exactly when they have the same items, genres, video
      and normalised sound tracks, however often and in whatever order. */
  lemma NormalFormIsBySet(m: Metadata, n: Metadata)
    requires Valid(m) && Valid(n)
    ensures Normalize(m) == Normalize(n) <==>
      SameItems(m.extended, n.extended) && SameItems(m.genres, n.genres) && m.video == n.video &&
      SameItems(NormalAudios(m.audios), NormalAudios(n.audios))
  {
    hide ItemLess, GenreLess, AudioLess, TextLess, ValidItem, ValidAudio;
    ItemOrder();
    GenreOrder();
    AudioOrder();
    CanonicalOfItems(ItemLess, m.extended, n.extended);
    CanonicalOfItems(GenreLess, m.genres, n.genres);
    CanonicalOfItems(AudioLess, NormalAudios(m.audios), NormalAudios(n.audios));
  }

  // ----- The operation

  lemma {:induction false} NormalAudiosJoin(audios: seq<Audio>, audio: Audio)
    ensures NormalAudios(audios + [audio]) == NormalAudios(audios) + [NormalAudio(audio)]
  {
    if audios == [] {
      assert [audio][1..] == [];
    } else {
      assert (audios + [audio])[1..] == audios[1..] + [audio];
      NormalAudiosJoin(audios[1..], audio);
    }
  }

  method CheckItems(items: seq<Item>) returns (valid: bool)
    ensures valid <==> forall item | item in items :: ValidItem(item)
  {
    for i := 0 to |items|
      invariant forall j | 0 <= j < i :: ValidItem(items[j])
    {
      if !ValidText(items[i].heading, MAX_HEADING_BYTES) || !ValidText(items[i].body, MAX_BODY_BYTES) {
        assert items[i] in items;
        return false;
      }
    }
    valid := true;
  }

  /** The languages of each sound track are sorted first, so that tracks can be compared. */
  method NormalizeAudios(audios: seq<Audio>) returns (normal: Option<seq<Audio>>)
    ensures normal.Some? <==> forall audio | audio in audios :: ValidAudio(audio)
    ensures normal.Some? ==> normal.value == NormalAudios(audios)
  {
    hide TextLess, ValidLanguage;
    TextOrder();
    var cloned: seq<Audio> := [];
    assert audios[..0] == [];
    for i := 0 to |audios|
      invariant cloned == NormalAudios(audios[..i])
      invariant forall j | 0 <= j < i :: ValidAudio(audios[j])
    {
      var audio := audios[i];
      assert audio in audios;
      if !ValidSamplingRate(audio.samplingRate) || |audio.languages| > MAX_AUDIO_LANGUAGES { return None; }
      for k := 0 to |audio.languages|
        invariant forall j | 0 <= j < k :: ValidLanguage(audio.languages[j])
      {
        if !ValidLanguage(audio.languages[k]) { return None; }
      }
      var languages := SortAndCompact(TextLess, audio.languages);
      NormalAudiosJoin(audios[..i], audio);
      assert audios[..i + 1] == audios[..i] + [audio];
      cloned := cloned + [audio.(languages := languages)];
    }
    assert audios[..|audios|] == audios;
    normal := Some(cloned);
  }

  /** `NormalizeMetadata`. */
  method NormalizeMetadata(m: Metadata) returns (r: Option<Metadata>)
    ensures r == Normalize(m)
  {
    hide ItemLess, GenreLess, AudioLess, TextLess, ValidItem, ValidAudio;
    if |m.extended| > MAX_EXTENDED_ITEMS || |m.genres| > MAX_GENRES || |m.audios| > MAX_AUDIOS { return None; }
    var valid := CheckItems(m.extended);
    if !valid { return None; }
    ItemOrder();
    GenreOrder();
    AudioOrder();
    var extended := SortAndCompact(ItemLess, m.extended);
    var genres := SortAndCompact(GenreLess, m.genres);
    var normal := NormalizeAudios(m.audios);
    if normal.None? { return None; }
    var audios := SortAndCompact(AudioLess, normal.value);
    r := Some(Metadata(extended, genres, m.video, audios));
  }
}
