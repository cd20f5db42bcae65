/** The card artwork lookup: every category has a table of SVG images, and a card's image is picked
    by its id, cycling through the table. */
module CardImageMapper {
  import opened Types

  /** One bundled card image, named by its category and its 1-based number in the file name. */
  datatype CardSvg = CardSvg(category: Category, number: int)

  /** What a lookup yields: the empty path for a category without images, `undefined` for an index
      outside the table, or an image. */
  datatype ImageResult = EmptyPath | Undefined | Svg(image: CardSvg)

  /** The number of images bundled per category. */
  function ImageCount(c: Category): nat {
    match c
    case Aufgabe => 24
    case Duell => 12
    case Gruppe => 12
    case Wahrheit => 32
    case Wildcard => 20
  }

  /** The bundled table of a category: its images numbered 1, 2, ... in order. */
  function Table(c: Category): (t: seq<CardSvg>)
    ensures |t| == ImageCount(c) > 0
    ensures forall k :: 0 <= k < |t| ==> t[k] == CardSvg(c, k + 1)
  {
    seq(ImageCount(c), k => CardSvg(c, k + 1))
  }

  /** The lookup table for every category. */
  function CardImages(): map<Category, seq<CardSvg>> {
    map[Aufgabe := Table(Aufgabe), Duell := Table(Duell), Gruppe := Table(Gruppe),
        Wahrheit := Table(Wahrheit), Wildcard := Table(Wildcard)]
  }

  /** Every category has its table. */
  lemma CardImagesCoverAll()
    ensures forall c :: c in CardImages() && CardImages()[c] == Table(c)
  {
    forall c: Category ensures c in CardImages() && CardImages()[c] == Table(c) {
      match c
      case Aufgabe =>
      case Duell =>
      case Gruppe =>
      case Wahrheit =>
      case Wildcard =>
    }
  }

  lemma TableSizes()
    ensures |Table(Aufgabe)| == 24 && |Table(Duell)| == 12 && |Table(Gruppe)| == 12
    ensures |Table(Wahrheit)| == 32 && |Table(Wildcard)| == 20
  {
  }

  /** JavaScript's `%`: the remainder of the division truncated toward zero, which takes the sign
      of the dividend. */
  function JsRem(a: int, n: int): (r: int)
    requires n > 0
    ensures a >= 0 ==> 0 <= r < n
    ensures a < 0 ==> -n < r <= 0
    ensures (if a < 0 then -r else r) == (if a < 0 then -a else a) % n
  {
    if a >= 0 then a % n else -((-a) % n)
  }

  /** getCardImage over a table per category, as written: index (cardId − 1) % length. */
  function GetCardImage(tables: map<Category, seq<CardSvg>>, category: Category, cardId: int): (r: ImageResult)
    ensures category !in tables || |tables[category]| == 0 <==> r == EmptyPath
    ensures r.Svg? ==> r.image in tables[category]
  {
    if category !in tables || |tables[category]| == 0 then EmptyPath
    else
      var images := tables[category];
      var imageIndex := JsRem(cardId - 1, |images|);
      if imageIndex >= 0 then Svg(images[imageIndex]) else Undefined
  }

  /** For every positive id the index lies inside the table, so an image is found. */
  lemma PositiveIdsFindAnImage(tables: map<Category, seq<CardSvg>>, category: Category, cardId: int)
    requires category in tables && |tables[category]| > 0 && cardId >= 1
    ensures 0 <= JsRem(cardId - 1, |tables[category]|) < |tables[category]|
    ensures GetCardImage(tables, category, cardId).Svg?
  {
  }

  /** Ids 1 to the table size pick the image with that number; larger ids go round again. */
  lemma IdsPickNumberedImages(c: Category, cardId: int)
    requires cardId >= 1
    ensures cardId <= ImageCount(c) ==> GetCardImage(CardImages(), c, cardId) == Svg(CardSvg(c, cardId))
    ensures GetCardImage(CardImages(), c, cardId + ImageCount(c)) == GetCardImage(CardImages(), c, cardId)
  {
    ImagesOf(c);
    var t := Table(c);
    var n := |t|;
    var i := (cardId - 1) % n;
    ShiftByLength(cardId - 1, c);
    assert JsRem(cardId - 1, n) == i;
    assert JsRem(cardId + n - 1, n) == i;
    assert GetCardImage(CardImages(), c, cardId) == Svg(t[i]);
    assert GetCardImage(CardImages(), c, cardId + n) == Svg(t[i]);
    if cardId <= n {
      SmallRemainder(cardId - 1, c);
    }
  }

  /** A number below a table's size is its own remainder by that size. */
  lemma SmallRemainder(a: int, c: Category)
    requires 0 <= a < ImageCount(c)
    ensures a % ImageCount(c) == a
  {
    match c
    case Aufgabe => assert a % 24 == a;
    case Duell => assert a % 12 == a;
    case Gruppe => assert a % 12 == a;
    case Wahrheit => assert a % 32 == a;
    case Wildcard => assert a % 20 == a;
  }

  /** The table the lookup map holds for one category. */
  lemma ImagesOf(c: Category)
    ensures c in CardImages() && CardImages()[c] == Table(c)
  {
    match c
    case Aufgabe =>
    case Duell =>
    case Gruppe =>
    case Wahrheit =>
    case Wildcard =>
  }

  /** Adding a table's size does not change a remainder by that size. */
  lemma ShiftByLength(a: int, c: Category)
    ensures (a + ImageCount(c)) % ImageCount(c) == a % ImageCount(c)
  {
    match c
    case Aufgabe => assert (a + 24) % 24 == a % 24;
    case Duell => assert (a + 12) % 12 == a % 12;
    case Gruppe => assert (a + 12) % 12 == a % 12;
    case Wahrheit => assert (a + 32) % 32 == a % 32;
    case Wildcard => assert (a + 20) % 20 == a % 20;
  }

  /** A category whose table is missing or empty gets the empty path, whatever the id. */
  lemma EmptyTableGivesEmptyPath(tables: map<Category, seq<CardSvg>>, category: Category, cardId: int)
    requires category in tables ==> tables[category] == []
    ensures GetCardImage(tables, category, cardId) == EmptyPath
  {
  }

  /** As written, an id of 0 or below gives a negative index and so `undefined`, not an image. */
  lemma NonPositiveIdIsUndefined(c: Category, cardId: int)
    requires cardId <= 0 && (-(cardId - 1)) % ImageCount(c) != 0
    ensures GetCardImage(CardImages(), c, cardId) == Undefined
  {
    CardImagesCoverAll();
  }

  lemma ZeroIdIsUndefined()
    ensures GetCardImage(CardImages(), Wahrheit, 0) == Undefined
  {
    NonPositiveIdIsUndefined(Wahrheit, 0);
  }

  /** The lookup with a remainder that never goes negative: every id picks an image, and the ids
      the catalog uses (1 and above) pick the same image as before. */
  function GetCardImageCycling(tables: map<Category, seq<CardSvg>>, category: Category, cardId: int): (r: ImageResult)
    ensures category !in tables || |tables[category]| == 0 <==> r == EmptyPath
    ensures r != Undefined
    ensures r.Svg? ==> r.image in tables[category]
  {
    if category !in tables || |tables[category]| == 0 then EmptyPath
    else
      var images := tables[category];
      Svg(images[(cardId - 1) % |images|])
  }

  lemma CyclingAgreesOnPositiveIds(tables: map<Category, seq<CardSvg>>, category: Category, cardId: int)
    requires cardId >= 1
    ensures GetCardImageCycling(tables, category, cardId) == GetCardImage(tables, category, cardId)
  {
  }

  /** With the cycling lookup every id, zero and negative ones included, shows an image of its own
      category, and ids one table length apart share it. */
  lemma CyclingAlwaysFindsAnImage(c: Category, cardId: int)
    ensures GetCardImageCycling(CardImages(), c, cardId).Svg?
    ensures GetCardImageCycling(CardImages(), c, cardId).image.category == c
    ensures GetCardImageCycling(CardImages(), c, cardId + ImageCount(c)) == GetCardImageCycling(CardImages(), c, cardId)
  {
    ImagesOf(c);
    var t := Table(c);
    var n := |t|;
    var i := (cardId - 1) % n;
    ShiftByLength(cardId - 1, c);
    assert GetCardImageCycling(CardImages(), c, cardId) == Svg(t[i]);
    assert GetCardImageCycling(CardImages(), c, cardId + n) == Svg(t[i]);
  }

  /** getRandomCardImage with the random number in [0, 1) supplied. */
  function GetRandomCardImage(tables: map<Category, seq<CardSvg>>, category: Category, random: real): (r: ImageResult)
    requires 0.0 <= random < 1.0
    ensures category !in tables || |tables[category]| == 0 <==> r == EmptyPath
    ensures r != Undefined
    ensures r.Svg? ==> r.image in tables[category]
  {
    if category !in tables || |tables[category]| == 0 then EmptyPath
    else
      var images := tables[category];
      var randomIndex := (random * |images| as real).Floor;
      assert 0 <= randomIndex < |images| by {
        assert 0.0 <= random * |images| as real < |images| as real;
      }
      Svg(images[randomIndex])
  }

  /** Every image of a table can come up: the random number k / n picks the k-th. */
  lemma EveryImageCanComeUp(c: Category, k: int)
    requires 0 <= k < ImageCount(c)
    ensures GetRandomCardImage(CardImages(), c, k as real / ImageCount(c) as real) == Svg(CardSvg(c, k + 1))
  {
    CardImagesCoverAll();
    var n := ImageCount(c) as real;
    assert k as real / n * n == k as real;
  }
}
