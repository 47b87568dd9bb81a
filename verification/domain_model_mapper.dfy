/**
 * The network-to-domain conversion: a cards payload whose every field may be
 * missing becomes a domain model in which nothing is missing, each missing
 * field taking a fixed default.
 */
module DomainModelMapper {
  import opened Wrappers

  // ---- The payload as it arrives: every field nullable ----

  datatype PrizeDto = PrizeDto(
    id: Option<int>,
    title: Option<string>,
    amount: Option<int>,
    prizeType: Option<string>,
    number: Option<int>)

  datatype ColorDto = ColorDto(
    background: Option<string>,
    backgroundGradient1: Option<string>,
    backgroundGradient2: Option<string>,
    backgroundGradient3: Option<string>,
    titleColor: Option<string>,
    textColor: Option<string>,
    borderColor: Option<string>)

  /** A matrix may be missing, and so may each of its rows (but not a cell). */
  datatype CardDto = CardDto(
    id: Option<int>,
    name: Option<string>,
    matrix: Option<seq<Option<seq<int>>>>,
    prizes: Option<seq<PrizeDto>>,
    color: Option<ColorDto>,
    bet: Option<int>)

  datatype CardsDto = CardsDto(cards: Option<seq<CardDto>>)

  // ---- The domain model: nothing missing ----

  datatype Prize = Prize(id: int, title: string, amount: int, prizeType: string, number: int)

  datatype Color = Color(
    background: string,
    backgroundGradient1: string,
    backgroundGradient2: string,
    backgroundGradient3: string,
    titleColor: string,
    textColor: string,
    borderColor: string)

  /** In `matrix`, -1 marks a blank cell. */
  datatype Card = Card(id: int, name: string, matrix: seq<seq<int>>, prizes: seq<Prize>, color: Color, bet: int)

  datatype CardsModel = CardsModel(cards: seq<Card>)

  // ---- Defaults ----

  const DEFAULT_CARD_ID: int := 0
  const DEFAULT_CARD_NAME: string := "Card"
  const DEFAULT_BET: int := 0
  /** A missing matrix becomes three empty rows. */
  const DEFAULT_MATRIX: seq<seq<int>> := [[], [], []]

  const DEFAULT_PRIZE_ID: int := 0
  const DEFAULT_PRIZE_TITLE: string := ""
  const DEFAULT_PRIZE_AMOUNT: int := 0
  const DEFAULT_PRIZE_TYPE: string := ""
  const DEFAULT_PRIZE_NUMBER: int := -1

  const DEFAULT_BACKGROUND: string := "#054A29"
  const DEFAULT_BACKGROUND_GRADIENT_1: string := "#0A5B30"
  const DEFAULT_BACKGROUND_GRADIENT_2: string := "#0F6C38"
  const DEFAULT_BACKGROUND_GRADIENT_3: string := "#137E40"
  const DEFAULT_TITLE_COLOR: string := "#FFFFFF"
  const DEFAULT_TEXT_COLOR: string := "#FFFFFF"
  const DEFAULT_BORDER_COLOR: string := "#FFFFFF"

  const DEFAULT_COLOR: Color := Color(
    DEFAULT_BACKGROUND, DEFAULT_BACKGROUND_GRADIENT_1, DEFAULT_BACKGROUND_GRADIENT_2,
    DEFAULT_BACKGROUND_GRADIENT_3, DEFAULT_TITLE_COLOR, DEFAULT_TEXT_COLOR, DEFAULT_BORDER_COLOR)

  // ---- The conversion ----

  /** Each row passes through; a missing row becomes an empty one. */
  function SafeRows(rows: seq<Option<seq<int>>>): (r: seq<seq<int>>)
    ensures |r| == |rows|
    ensures forall i :: 0 <= i < |rows| && rows[i].Some? ==> r[i] == rows[i].value
    ensures forall i :: 0 <= i < |rows| && rows[i].None? ==> r[i] == []
  {
    if rows == [] then [] else [rows[0].GetOr([])] + SafeRows(rows[1..])
  }

  function SafeMatrix(matrix: Option<seq<Option<seq<int>>>>): (r: seq<seq<int>>)
    ensures matrix.None? ==> r == DEFAULT_MATRIX
    ensures matrix.Some? ==> r == SafeRows(matrix.value)
  {
    SafeRows(matrix.GetOr(DEFAULT_MATRIX_DTO))
  }

  /** The default matrix, seen as a payload matrix of three present empty rows. */
  const DEFAULT_MATRIX_DTO: seq<Option<seq<int>>> := [Some([]), Some([]), Some([])]

  function AsPrize(p: PrizeDto): Prize {
    Prize(
      p.id.GetOr(DEFAULT_PRIZE_ID),
      p.title.GetOr(DEFAULT_PRIZE_TITLE),
      p.amount.GetOr(DEFAULT_PRIZE_AMOUNT),
      p.prizeType.GetOr(DEFAULT_PRIZE_TYPE),
      p.number.GetOr(DEFAULT_PRIZE_NUMBER))
  }

  /** One prize per payload prize, in order. */
  function AsPrizes(ps: seq<PrizeDto>): (r: seq<Prize>)
    ensures |r| == |ps|
    ensures forall i :: 0 <= i < |ps| ==> r[i] == AsPrize(ps[i])
  {
    if ps == [] then [] else [AsPrize(ps[0])] + AsPrizes(ps[1..])
  }

  /** A missing colour object behaves as one whose every field is missing. */
  function AsColor(c: Option<ColorDto>): Color {
    var d := c.GetOr(ColorDto(None, None, None, None, None, None, None));
    Color(
      d.background.GetOr(DEFAULT_BACKGROUND),
      d.backgroundGradient1.GetOr(DEFAULT_BACKGROUND_GRADIENT_1),
      d.backgroundGradient2.GetOr(DEFAULT_BACKGROUND_GRADIENT_2),
      d.backgroundGradient3.GetOr(DEFAULT_BACKGROUND_GRADIENT_3),
      d.titleColor.GetOr(DEFAULT_TITLE_COLOR),
      d.textColor.GetOr(DEFAULT_TEXT_COLOR),
      d.borderColor.GetOr(DEFAULT_BORDER_COLOR))
  }

  function AsCard(d: CardDto): Card {
    Card(
      d.id.GetOr(DEFAULT_CARD_ID),
      d.name.GetOr(DEFAULT_CARD_NAME),
      SafeMatrix(d.matrix),
      AsPrizes(d.prizes.GetOr([])),
      AsColor(d.color),
      d.bet.GetOr(DEFAULT_BET))
  }

  function AsCards(ds: seq<CardDto>): (r: seq<Card>)
    ensures |r| == |ds|
    ensures forall i :: 0 <= i < |ds| ==> r[i] == AsCard(ds[i])
  {
    if ds == [] then [] else [AsCard(ds[0])] + AsCards(ds[1..])
  }

  /** `CardsDto.asDomainModel`: total, one card per payload card, in order. */
  function AsDomainModel(dto: CardsDto): (m: CardsModel)
    ensures dto.cards.None? ==> m.cards == []
    ensures dto.cards.Some? ==> |m.cards| == |dto.cards.value|
    ensures dto.cards.Some? ==> forall i :: 0 <= i < |m.cards| ==> m.cards[i] == AsCard(dto.cards.value[i])
  {
    CardsModel(AsCards(dto.cards.GetOr([])))
  }

  // ---- Field by field: a present value is copied, a missing one defaulted ----

  lemma CardFields(d: CardDto)
    ensures d.id.Some? ==> AsCard(d).id == d.id.value
    ensures d.id.None? ==> AsCard(d).id == DEFAULT_CARD_ID
    ensures d.name.Some? ==> AsCard(d).name == d.name.value
    ensures d.name.None? ==> AsCard(d).name == DEFAULT_CARD_NAME
    ensures d.bet.Some? ==> AsCard(d).bet == d.bet.value
    ensures d.bet.None? ==> AsCard(d).bet == DEFAULT_BET
    ensures d.prizes.None? ==> AsCard(d).prizes == []
    ensures d.prizes.Some? ==> |AsCard(d).prizes| == |d.prizes.value|
    ensures d.color.None? ==> AsCard(d).color == DEFAULT_COLOR
    ensures d.matrix.None? ==> AsCard(d).matrix == DEFAULT_MATRIX
    ensures d.matrix.Some? ==> |AsCard(d).matrix| == |d.matrix.value|
  {
  }

  lemma PrizeFields(p: PrizeDto)
    ensures p.id.Some? ==> AsPrize(p).id == p.id.value
    ensures p.id.None? ==> AsPrize(p).id == DEFAULT_PRIZE_ID
    ensures p.title.Some? ==> AsPrize(p).title == p.title.value
    ensures p.title.None? ==> AsPrize(p).title == DEFAULT_PRIZE_TITLE
    ensures p.amount.Some? ==> AsPrize(p).amount == p.amount.value
    ensures p.amount.None? ==> AsPrize(p).amount == DEFAULT_PRIZE_AMOUNT
    ensures p.prizeType.Some? ==> AsPrize(p).prizeType == p.prizeType.value
    ensures p.prizeType.None? ==> AsPrize(p).prizeType == DEFAULT_PRIZE_TYPE
    ensures p.number.Some? ==> AsPrize(p).number == p.number.value
    ensures p.number.None? ==> AsPrize(p).number == DEFAULT_PRIZE_NUMBER
  {
  }

  /** Each colour field independently: present is copied, missing (or no colour object) takes its default. */
  lemma ColorFields(c: Option<ColorDto>)
    ensures c.Some? && c.value.background.Some? ==> AsColor(c).background == c.value.background.value
    ensures (c.None? || c.value.background.None?) ==> AsColor(c).background == DEFAULT_BACKGROUND
    ensures c.Some? && c.value.backgroundGradient1.Some? ==> AsColor(c).backgroundGradient1 == c.value.backgroundGradient1.value
    ensures (c.None? || c.value.backgroundGradient1.None?) ==> AsColor(c).backgroundGradient1 == DEFAULT_BACKGROUND_GRADIENT_1
    ensures c.Some? && c.value.backgroundGradient2.Some? ==> AsColor(c).backgroundGradient2 == c.value.backgroundGradient2.value
    ensures (c.None? || c.value.backgroundGradient2.None?) ==> AsColor(c).backgroundGradient2 == DEFAULT_BACKGROUND_GRADIENT_2
    ensures c.Some? && c.value.backgroundGradient3.Some? ==> AsColor(c).backgroundGradient3 == c.value.backgroundGradient3.value
    ensures (c.None? || c.value.backgroundGradient3.None?) ==> AsColor(c).backgroundGradient3 == DEFAULT_BACKGROUND_GRADIENT_3
    ensures c.Some? && c.value.titleColor.Some? ==> AsColor(c).titleColor == c.value.titleColor.value
    ensures (c.None? || c.value.titleColor.None?) ==> AsColor(c).titleColor == DEFAULT_TITLE_COLOR
    ensures c.Some? && c.value.textColor.Some? ==> AsColor(c).textColor == c.value.textColor.value
    ensures (c.None? || c.value.textColor.None?) ==> AsColor(c).textColor == DEFAULT_TEXT_COLOR
    ensures c.Some? && c.value.borderColor.Some? ==> AsColor(c).borderColor == c.value.borderColor.value
    ensures (c.None? || c.value.borderColor.None?) ==> AsColor(c).borderColor == DEFAULT_BORDER_COLOR
  {
  }

  /** A card with every field missing becomes the all-defaults card. */
  lemma EmptyCardDefaults()
    ensures AsCard(CardDto(None, None, None, None, None, None))
         == Card(DEFAULT_CARD_ID, DEFAULT_CARD_NAME, DEFAULT_MATRIX, [], DEFAULT_COLOR, DEFAULT_BET)
  {
  }

  // ---- Inverse: a domain model seen as a payload with every field present ----

  function PrizeAsDto(p: Prize): PrizeDto {
    PrizeDto(Some(p.id), Some(p.title), Some(p.amount), Some(p.prizeType), Some(p.number))
  }

  function ColorAsDto(c: Color): ColorDto {
    ColorDto(Some(c.background), Some(c.backgroundGradient1), Some(c.backgroundGradient2),
      Some(c.backgroundGradient3), Some(c.titleColor), Some(c.textColor), Some(c.borderColor))
  }

  function PrizesAsDto(ps: seq<Prize>): (r: seq<PrizeDto>)
    ensures |r| == |ps|
    ensures forall i :: 0 <= i < |ps| ==> r[i] == PrizeAsDto(ps[i])
  {
    if ps == [] then [] else [PrizeAsDto(ps[0])] + PrizesAsDto(ps[1..])
  }

  function RowsAsDto(rows: seq<seq<int>>): (r: seq<Option<seq<int>>>)
    ensures |r| == |rows|
    ensures forall i :: 0 <= i < |rows| ==> r[i] == Some(rows[i])
  {
    if rows == [] then [] else [Some(rows[0])] + RowsAsDto(rows[1..])
  }

  function CardAsDto(c: Card): CardDto {
    CardDto(Some(c.id), Some(c.name), Some(RowsAsDto(c.matrix)), Some(PrizesAsDto(c.prizes)),
      Some(ColorAsDto(c.color)), Some(c.bet))
  }

  function CardsAsDto(cs: seq<Card>): (r: seq<CardDto>)
    ensures |r| == |cs|
    ensures forall i :: 0 <= i < |cs| ==> r[i] == CardAsDto(cs[i])
  {
    if cs == [] then [] else [CardAsDto(cs[0])] + CardsAsDto(cs[1..])
  }

  function ModelAsDto(m: CardsModel): CardsDto {
    CardsDto(Some(CardsAsDto(m.cards)))
  }

  /** A payload with nothing missing converts to exactly the model it describes. */
  lemma CardRoundTrip(c: Card)
    ensures AsCard(CardAsDto(c)) == c
  {
  }

  lemma {:induction false} RoundTrip(m: CardsModel)
    ensures AsDomainModel(ModelAsDto(m)) == m
  {
    var cs := AsDomainModel(ModelAsDto(m)).cards;
    forall i | 0 <= i < |cs|
      ensures cs[i] == m.cards[i]
    {
      CardRoundTrip(m.cards[i]);
    }
  }

  /** Converting is a normalisation: filling in a converted model's fields and converting again changes nothing. */
  lemma Normalising(dto: CardsDto)
    ensures AsDomainModel(ModelAsDto(AsDomainModel(dto))) == AsDomainModel(dto)
  {
    RoundTrip(AsDomainModel(dto));
  }
}
