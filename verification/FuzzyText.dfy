/** Text normalisation before an approximate search: width, kana, case and detached voicing marks are
    folded so that spellings a viewer would call equal compare equal. */
module FuzzyText {
  import opened Fuzzy

  const VOICED: Rune := 0x3099
  const SEMI_VOICED: Rune := 0x309A

  /** Kana and the punctuation that shares their blocks: neither spaces, ASCII nor marks. */
  type Kana = r: int | 0x3000 < r < 0x3041 || 0x309C < r < 0x30FF witness 0x30A1

  /** The full-width runes of the half-width block U+FF61..U+FF9D, in order. */
  const HALFWIDTH_KATAKANA: seq<Kana> := [
    0x3002, 0x300c, 0x300d, 0x3001, 0x30fb, 0x30f2, 0x30a1, 0x30a3, 0x30a5, 0x30a7, 0x30a9, 0x30e3, 0x30e5,
    0x30e7, 0x30c3, 0x30fc, 0x30a2, 0x30a4, 0x30a6, 0x30a8, 0x30aa, 0x30ab, 0x30ad, 0x30af, 0x30b1, 0x30b3,
    0x30b5, 0x30b7, 0x30b9, 0x30bb, 0x30bd, 0x30bf, 0x30c1, 0x30c4, 0x30c6, 0x30c8, 0x30ca, 0x30cb, 0x30cc,
    0x30cd, 0x30ce, 0x30cf, 0x30d2, 0x30d5, 0x30d8, 0x30db, 0x30de, 0x30df, 0x30e0, 0x30e1, 0x30e2, 0x30e4,
    0x30e6, 0x30e8, 0x30e9, 0x30ea, 0x30eb, 0x30ec, 0x30ed, 0x30ef, 0x30f3]

  /** The white space of Unicode, as the standard library counts it. */
  predicate IsSpace(c: Rune) {
    0x09 <= c <= 0x0D || c in {0x20, 0x85, 0xA0, 0x1680, 0x2028, 0x2029, 0x202F, 0x205F, 0x3000} ||
    0x2000 <= c <= 0x200A
  }

  /** The mark a rune stands for: spacing, combining and half-width forms are one mark. */
  function MarkOf(c: Rune): (mark: int)
    ensures mark in {0, VOICED, SEMI_VOICED}
  {
    if c in {0xff9e, 0x3099, 0x309b} then VOICED
    else if c in {0xff9f, 0x309a, 0x309c} then SEMI_VOICED
    else 0
  }

  /** `composeKana`: the rune `last` becomes under a mark, or 0 when the two do not compose. */
  function Composed(last: Rune, voiced: bool): Rune {
    if voiced then
      if last == 0x30a6 then 0x30f4
      else if last == 0x30ef then 0x30f7
      else if last == 0x30f0 then 0x30f8
      else if last == 0x30f1 then 0x30f9
      else if last == 0x30f2 then 0x30fa
      else if last in {0x30ab, 0x30ad, 0x30af, 0x30b1, 0x30b3, 0x30b5, 0x30b7, 0x30b9, 0x30bb, 0x30bd, 0x30bf,
                       0x30c1, 0x30c4, 0x30c6, 0x30c8, 0x30cf, 0x30d2, 0x30d5, 0x30d8, 0x30db} then last + 1
      else 0
    else if last in {0x30cf, 0x30d2, 0x30d5, 0x30d8, 0x30db} then last + 2
    else 0
  }

  /** Width and kana folding of a rune that is not a mark. */
  function Folded(c: Rune): Rune {
    if 0xff01 <= c <= 0xff5e then c - 0xfee0
    else if c == 0x3000 then 0x20
    else if 0x3041 <= c <= 0x3096 then c + 0x60
    else if 0xff61 <= c <= 0xff9d then HALFWIDTH_KATAKANA[c - 0xff61]
    else if IsSpace(c) then 0x20
    else c
  }

  function Cased(c: Rune, caseSensitive: bool): Rune {
    if !caseSensitive && 'A' as int <= c <= 'Z' as int then c + 32 else c
  }

  /** One rune of the input applied to the text normalised so far. */
  function Absorb(text: seq<Rune>, c: Rune, caseSensitive: bool): seq<Rune> {
    var mark := MarkOf(c);
    if mark == 0 then text + [Cased(Folded(c), caseSensitive)]
    else if text != [] && Composed(text[|text| - 1], mark == VOICED) != 0 then
      text[..|text| - 1] + [Composed(text[|text| - 1], mark == VOICED)]
    else text + [mark]
  }

  function Normalized(value: seq<Rune>, caseSensitive: bool): seq<Rune> {
    if value == [] then []
    else Absorb(Normalized(value[..|value| - 1], caseSensitive), value[|value| - 1], caseSensitive)
  }

  /** One turn of the loop: the last rune is overwritten when a mark composes with it. */
  method AbsorbRune(text: seq<Rune>, original: Rune, caseSensitive: bool) returns (result: seq<Rune>)
    ensures result == Absorb(text, original, caseSensitive)
  {
    var character := original;
    var mark := MarkOf(original);
    if mark != 0 {
      if text != [] {
        var composed := Composed(text[|text| - 1], mark == VOICED);
        if composed != 0 { return text[|text| - 1 := composed]; }
      }
      character := mark;
    } else {
      character := Cased(Folded(character), caseSensitive);
    }
    result := text + [character];
  }

  /** `normalizeFuzzyText`. */
  method NormalizeFuzzyText(value: seq<Rune>, caseSensitive: bool) returns (result: seq<Rune>)
    ensures result == Normalized(value, caseSensitive)
    ensures Normalized(result, caseSensitive) == result
  {
    result := [];
    for index := 0 to |value|
      invariant result == Normalized(value[..index], caseSensitive)
    {
      assert value[..index + 1][..index] == value[..index];
      result := AbsorbRune(result, value[index], caseSensitive);
    }
    assert value[..|value|] == value;
    NormalizeIdempotent(value, caseSensitive);
  }

  // ----- Normalised text is a fixed point

  /** A rune normalisation leaves alone wherever it stands, unless it is a mark. */
  predicate Plain(c: Rune, caseSensitive: bool) {
    MarkOf(c) == 0 && Cased(Folded(c), caseSensitive) == c
  }

  predicate Settled(text: seq<Rune>, caseSensitive: bool) {
    forall i | 0 <= i < |text| ::
      Plain(text[i], caseSensitive) ||
      (text[i] == MarkOf(text[i]) && (i == 0 || Composed(text[i - 1], text[i] == VOICED) == 0))
  }

  lemma FoldedIsPlain(c: Rune, caseSensitive: bool)
    requires MarkOf(c) == 0
    ensures Plain(Cased(Folded(c), caseSensitive), caseSensitive)
  {
    if 0xff61 <= c <= 0xff9d {
      var kana: Kana := HALFWIDTH_KATAKANA[c - 0xff61];
      assert Folded(c) == kana;
    }
  }

  lemma ComposedIsPlain(last: Rune, voiced: bool, caseSensitive: bool)
    requires Composed(last, voiced) != 0
    ensures Plain(Composed(last, voiced), caseSensitive)
  {
  }

  lemma AbsorbKeepsSettled(text: seq<Rune>, c: Rune, caseSensitive: bool)
    requires Settled(text, caseSensitive)
    ensures Settled(Absorb(text, c, caseSensitive), caseSensitive)
  {
    var mark := MarkOf(c);
    if mark == 0 {
      FoldedIsPlain(c, caseSensitive);
    } else if text != [] && Composed(text[|text| - 1], mark == VOICED) != 0 {
      ComposedIsPlain(text[|text| - 1], mark == VOICED, caseSensitive);
    }
  }

  lemma {:induction false} NormalizedIsSettled(value: seq<Rune>, caseSensitive: bool)
    ensures Settled(Normalized(value, caseSensitive), caseSensitive)
    decreases |value|
  {
    if value != [] {
      NormalizedIsSettled(value[..|value| - 1], caseSensitive);
      AbsorbKeepsSettled(Normalized(value[..|value| - 1], caseSensitive), value[|value| - 1], caseSensitive);
    }
  }

  lemma LastIsFixed(rest: seq<Rune>, c: Rune, caseSensitive: bool)
    requires Settled(rest + [c], caseSensitive)
    ensures Settled(rest, caseSensitive) && Absorb(rest, c, caseSensitive) == rest + [c]
  {
    var text := rest + [c];
    assert text[|rest|] == c && (rest != [] ==> text[|rest| - 1] == rest[|rest| - 1]);
    assert forall i | 0 <= i < |rest| :: rest[i] == text[i];
  }

  lemma {:induction false} SettledIsFixed(text: seq<Rune>, caseSensitive: bool)
    requires Settled(text, caseSensitive)
    ensures Normalized(text, caseSensitive) == text
    decreases |text|
  {
    if text != [] {
      var rest, c := text[..|text| - 1], text[|text| - 1];
      assert text == rest + [c];
      LastIsFixed(rest, c, caseSensitive);
      SettledIsFixed(rest, caseSensitive);
    }
  }

  /** Normalising twice is normalising once: stored and freshly normalised texts compare alike. */
  lemma NormalizeIdempotent(value: seq<Rune>, caseSensitive: bool)
    ensures Normalized(Normalized(value, caseSensitive), caseSensitive) == Normalized(value, caseSensitive)
  {
    NormalizedIsSettled(value, caseSensitive);
    SettledIsFixed(Normalized(value, caseSensitive), caseSensitive);
  }
}
