/**
 * The persistence mapping: a cards model is flattened into card rows (the
 * matrix stored as JSON text) and prize rows tagged with their card's id, and
 * rows read back (each card row with the prize rows of its id) are turned into
 * a cards model or into the plain `CardsDao` shape.
 *
 * The JSON serializer is foreign code: it is a parameter holding an encoder
 * and a decoder, and a decode that throws is `None`.
 */
module DaoModelMapper {
  import opened Wrappers
  import opened Sequences

  type Matrix = seq<seq<int>>

  datatype Json = Json(encode: Matrix -> string, decode: string -> Option<Matrix>)

  /** The serializer reads back what it wrote for `m`. */
  predicate RoundTrips(json: Json, m: Matrix) {
    json.decode(json.encode(m)) == Some(m)
  }

  // ---- The cards model the cache stores and serves ----

  datatype CardColors = CardColors(
    background: string,
    backgroundGradient1: string,
    backgroundGradient2: string,
    backgroundGradient3: string,
    titleColor: string,
    textColor: string,
    borderColor: string)

  datatype Prize = Prize(id: int, title: string, amount: int, prizeType: string, number: int)

  datatype Card = Card(id: int, name: string, matrix: Matrix, prizes: seq<Prize>, colors: CardColors, bet: int)

  datatype CardsModel = CardsModel(cards: seq<Card>)

  // ---- Rows of the two tables ----

  datatype ColorEmbeddedEntity = ColorEmbeddedEntity(
    background: string,
    backgroundGradient1: string,
    backgroundGradient2: string,
    backgroundGradient3: string,
    titleColor: string,
    textColor: string,
    borderColor: string)

  datatype CardEntity = CardEntity(id: int, name: string, matrixJson: string, bet: int, color: ColorEmbeddedEntity)

  /** `pk` 0 asks the database to generate the key. */
  datatype PrizeEntity = PrizeEntity(pk: int, cardId: int, id: int, title: string, amount: int, prizeType: string, number: int)

  datatype CardWithPrizesEntity = CardWithPrizesEntity(card: CardEntity, prizes: seq<PrizeEntity>)

  const AUTO_GENERATED_PK: int := 0

  // ---- The plain read shape ----

  datatype ColorDao = ColorDao(
    background: string,
    backgroundGradient1: string,
    backgroundGradient2: string,
    backgroundGradient3: string,
    titleColor: string,
    textColor: string,
    borderColor: string)

  datatype PrizeDao = PrizeDao(id: int, title: string, amount: int, prizeType: string, number: int)

  datatype CardDao = CardDao(id: int, name: string, matrix: Matrix, prizes: seq<PrizeDao>, color: ColorDao, bet: int)

  datatype CardsDao = CardsDao(cards: seq<CardDao>)

  // ---- Writing: model to rows ----

  function ColorEntity(c: CardColors): ColorEmbeddedEntity {
    ColorEmbeddedEntity(c.background, c.backgroundGradient1, c.backgroundGradient2,
      c.backgroundGradient3, c.titleColor, c.textColor, c.borderColor)
  }

  function CardToEntity(c: Card, json: Json): CardEntity {
    CardEntity(c.id, c.name, json.encode(c.matrix), c.bet, ColorEntity(c.colors))
  }

  function CardEntities(cards: seq<Card>, json: Json): (es: seq<CardEntity>)
    ensures |es| == |cards|
    ensures forall i :: 0 <= i < |cards| ==>
      && es[i].id == cards[i].id
      && es[i].name == cards[i].name
      && es[i].bet == cards[i].bet
      && es[i].matrixJson == json.encode(cards[i].matrix)
      && ColorsOf(es[i].color) == cards[i].colors
  {
    if cards == [] then [] else [CardToEntity(cards[0], json)] + CardEntities(cards[1..], json)
  }

  /** `CardsModel.asCardEntity`: one card row per card, in order, the matrix stored as its JSON text. */
  function AsCardEntity(m: CardsModel, json: Json): (es: seq<CardEntity>)
    ensures |es| == |m.cards|
    ensures forall i :: 0 <= i < |es| ==> es[i] == CardToEntity(m.cards[i], json)
  {
    CardEntities(m.cards, json)
  }

  function PrizeToEntity(cardId: int, p: Prize): PrizeEntity {
    PrizeEntity(AUTO_GENERATED_PK, cardId, p.id, p.title, p.amount, p.prizeType, p.number)
  }

  /** The prize rows of one card: its prizes in order, each tagged with the card's id. */
  function PrizeRows(c: Card): (rows: seq<PrizeEntity>)
    ensures |rows| == |c.prizes|
    ensures forall j :: 0 <= j < |rows| ==> rows[j] == PrizeToEntity(c.id, c.prizes[j])
  {
    PrizeRowsFrom(c.id, c.prizes)
  }

  function PrizeRowsFrom(cardId: int, ps: seq<Prize>): (rows: seq<PrizeEntity>)
    ensures |rows| == |ps|
    ensures forall j :: 0 <= j < |rows| ==> rows[j] == PrizeToEntity(cardId, ps[j])
  {
    if ps == [] then [] else [PrizeToEntity(cardId, ps[0])] + PrizeRowsFrom(cardId, ps[1..])
  }

  /** The number of prizes over all cards. */
  function TotalPrizes(cards: seq<Card>): nat {
    if cards == [] then 0 else |cards[0].prizes| + TotalPrizes(cards[1..])
  }

  function Ids(cards: seq<Card>): set<int> {
    set c | c in cards :: c.id
  }

  function AllPrizeRows(cards: seq<Card>): (rows: seq<PrizeEntity>)
    ensures |rows| == TotalPrizes(cards)
    ensures forall j :: 0 <= j < |rows| ==> rows[j].pk == AUTO_GENERATED_PK && rows[j].cardId in Ids(cards)
  {
    if cards == [] then []
    else
      var rest := AllPrizeRows(cards[1..]);
      assert Ids(cards[1..]) <= Ids(cards) by {
        forall c | c in cards[1..] ensures c in cards { }
      }
      assert cards[0] in cards;
      PrizeRows(cards[0]) + rest
  }

  /**
   * Where each card's prize rows sit among all prize rows: card k's rows
   * start after the rows of the cards before it, and its l-th row is its
   * l-th prize tagged with its id.
   */
  lemma PrizeRowsLayout(cards: seq<Card>)
    ensures forall k :: 0 <= k < |cards| ==>
      TotalPrizes(cards[..k]) + |cards[k].prizes| <= |AllPrizeRows(cards)|
    ensures forall k, l :: 0 <= k < |cards| && 0 <= l < |cards[k].prizes| ==>
      AllPrizeRows(cards)[TotalPrizes(cards[..k]) + l] == PrizeToEntity(cards[k].id, cards[k].prizes[l])
  {
    EveryCardFits(cards);
    forall k, l | 0 <= k < |cards| && 0 <= l < |cards[k].prizes|
      ensures AllPrizeRows(cards)[TotalPrizes(cards[..k]) + l] == PrizeToEntity(cards[k].id, cards[k].prizes[l])
    {
      PrizeRowAt(cards, k, l);
    }
  }

  /** Every card's prize rows fit after the rows of the cards before it. */
  lemma EveryCardFits(cards: seq<Card>)
    ensures forall k :: 0 <= k < |cards| ==>
      TotalPrizes(cards[..k]) + |cards[k].prizes| <= |AllPrizeRows(cards)|
  {
    forall k | 0 <= k < |cards|
      ensures TotalPrizes(cards[..k]) + |cards[k].prizes| <= |AllPrizeRows(cards)|
    {
      PrizeRowsFit(cards, k);
    }
  }

  /** Card k's prize rows fit after the rows of the cards before it. */
  lemma {:induction false} PrizeRowsFit(cards: seq<Card>, k: int)
    requires 0 <= k < |cards|
    ensures TotalPrizes(cards[..k]) + |cards[k].prizes| <= |AllPrizeRows(cards)|
  {
    if k == 0 {
      assert cards[..k] == [];
    } else {
      PrizesBefore(cards, k);
      PrizeRowsFit(cards[1..], k - 1);
    }
  }

  /** Card k's l-th prize row sits right after the rows of the cards before it, plus l. */
  lemma {:induction false} PrizeRowAt(cards: seq<Card>, k: int, l: int)
    requires 0 <= k < |cards| && 0 <= l < |cards[k].prizes|
    ensures TotalPrizes(cards[..k]) + l < |AllPrizeRows(cards)|
    ensures AllPrizeRows(cards)[TotalPrizes(cards[..k]) + l] == PrizeToEntity(cards[k].id, cards[k].prizes[l])
  {
    var first, rest := PrizeRows(cards[0]), AllPrizeRows(cards[1..]);
    assert AllPrizeRows(cards) == first + rest;
    if k == 0 {
      assert cards[..k] == [];
      assert (first + rest)[l] == first[l];
    } else {
      PrizesBefore(cards, k);
      PrizeRowAt(cards[1..], k - 1, l);
      var j := TotalPrizes(cards[1..][..k - 1]) + l;
      assert (first + rest)[|first| + j] == rest[j];
    }
  }

  /** Past the first card, the prizes before card k are the first card's plus those before it in the tail. */
  lemma PrizesBefore(cards: seq<Card>, k: int)
    requires 0 < k < |cards|
    ensures TotalPrizes(cards[..k]) == |cards[0].prizes| + TotalPrizes(cards[1..][..k - 1])
    ensures cards[1..][k - 1] == cards[k]
  {
    assert cards[..k][1..] == cards[1..][..k - 1];
    assert cards[..k][0] == cards[0];
  }

  /**
   * `CardsModel.asPrizeEntity`: the prize rows of every card, card after card;
   * as many rows as prizes, card k's l-th prize at the row after all prizes of
   * the cards before it, with a generated key and card k's id.
   */
  function AsPrizeEntity(m: CardsModel): (rows: seq<PrizeEntity>)
    ensures |rows| == TotalPrizes(m.cards)
    ensures forall j :: 0 <= j < |rows| ==> rows[j].pk == AUTO_GENERATED_PK && rows[j].cardId in Ids(m.cards)
    ensures forall k :: 0 <= k < |m.cards| ==> TotalPrizes(m.cards[..k]) + |m.cards[k].prizes| <= |rows|
    ensures forall k, l :: 0 <= k < |m.cards| && 0 <= l < |m.cards[k].prizes| ==>
      rows[TotalPrizes(m.cards[..k]) + l] == PrizeToEntity(m.cards[k].id, m.cards[k].prizes[l])
  {
    PrizeRowsLayout(m.cards);
    AllPrizeRows(m.cards)
  }

  // ---- Reading: the relation between the two tables ----

  /** The prize rows whose `cardId` is `id`, in table order. */
  function WithCardId(rows: seq<PrizeEntity>, id: int): (r: seq<PrizeEntity>)
    ensures forall j :: 0 <= j < |r| ==> r[j].cardId == id
    ensures forall p :: p in r <==> p in rows && p.cardId == id
  {
    if rows == [] then []
    else (if rows[0].cardId == id then [rows[0]] else []) + WithCardId(rows[1..], id)
  }

  /**
   * The rows of an id keep their table order, and each occurs exactly as
   * often as in the table.
   */
  lemma {:induction false} WithCardIdKeeps(rows: seq<PrizeEntity>, id: int)
    ensures IsSublist(WithCardId(rows, id), rows)
    ensures forall p :: multiset(WithCardId(rows, id))[p] == (if p.cardId == id then multiset(rows)[p] else 0)
  {
    if rows != [] {
      var rest := WithCardId(rows[1..], id);
      WithCardIdKeeps(rows[1..], id);
      assert rows == [rows[0]] + rows[1..];
      WithCardIdCons(rows[0], rows[1..], id);
      assert multiset(rows) == multiset{rows[0]} + multiset(rows[1..]);
      if rows[0].cardId == id {
        assert ([rows[0]] + rest)[1..] == rest;
        assert multiset([rows[0]] + rest) == multiset{rows[0]} + multiset(rest);
      } else {
        assert [] + rest == rest;
        SublistOfTail(rest, rows[1..], rows[0]);
      }
    }
  }

  /** Each card row paired with the prize rows that carry its id, as the one-to-many relation reads them. */
  function Relate(cards: seq<CardEntity>, prizes: seq<PrizeEntity>): (r: seq<CardWithPrizesEntity>)
    ensures |r| == |cards|
    ensures forall i :: 0 <= i < |r| ==> r[i].card == cards[i] && r[i].prizes == WithCardId(prizes, cards[i].id)
  {
    if cards == [] then []
    else [CardWithPrizesEntity(cards[0], WithCardId(prizes, cards[0].id))] + Relate(cards[1..], prizes)
  }

  // ---- Reading: rows to model ----

  function ColorsOf(e: ColorEmbeddedEntity): CardColors {
    CardColors(e.background, e.backgroundGradient1, e.backgroundGradient2,
      e.backgroundGradient3, e.titleColor, e.textColor, e.borderColor)
  }

  function PrizeOf(e: PrizeEntity): Prize {
    Prize(e.id, e.title, e.amount, e.prizeType, e.number)
  }

  function PrizesOf(rows: seq<PrizeEntity>): (ps: seq<Prize>)
    ensures |ps| == |rows|
    ensures forall j :: 0 <= j < |ps| ==> ps[j] == PrizeOf(rows[j])
  {
    if rows == [] then [] else [PrizeOf(rows[0])] + PrizesOf(rows[1..])
  }

  /** One card from a card row and its prize rows; `None` when the stored matrix does not decode. */
  function CardOf(cw: CardWithPrizesEntity, json: Json): (r: Option<Card>)
    ensures r.Some? <==> json.decode(cw.card.matrixJson).Some?
    ensures r.Some? ==>
      && r.value.id == cw.card.id
      && r.value.name == cw.card.name
      && r.value.bet == cw.card.bet
      && Some(r.value.matrix) == json.decode(cw.card.matrixJson)
      && r.value.prizes == PrizesOf(cw.prizes)
      && r.value.colors == ColorsOf(cw.card.color)
  {
    match json.decode(cw.card.matrixJson)
    case None => None
    case Some(matrix) =>
      Some(Card(cw.card.id, cw.card.name, matrix, PrizesOf(cw.prizes), ColorsOf(cw.card.color), cw.card.bet))
  }

  /** Every stored matrix decodes. */
  predicate AllDecode(rows: seq<CardWithPrizesEntity>, json: Json) {
    forall i :: 0 <= i < |rows| ==> json.decode(rows[i].card.matrixJson).Some?
  }

  function CardsOf(rows: seq<CardWithPrizesEntity>, json: Json): (r: Option<seq<Card>>)
    ensures r.Some? <==> AllDecode(rows, json)
    ensures r.Some? ==> |r.value| == |rows| && forall i :: 0 <= i < |rows| ==> CardOf(rows[i], json) == Some(r.value[i])
  {
    if rows == [] then Some([])
    else
      match CardOf(rows[0], json)
      case None => None
      case Some(c) =>
        match CardsOf(rows[1..], json)
        case None =>
          assert !AllDecode(rows[1..], json);
          None
        case Some(cs) => Some([c] + cs)
  }

  /**
   * `asCardsModel`: one card per row, in order, with the decoded matrix and the
   * row's prizes in order; the decoder throwing on any row makes the whole
   * conversion throw.
   */
  function AsCardsModel(rows: seq<CardWithPrizesEntity>, json: Json): (r: Option<CardsModel>)
    ensures r.Some? <==> AllDecode(rows, json)
    ensures r.Some? ==> |r.value.cards| == |rows|
    ensures r.Some? ==> forall i :: 0 <= i < |rows| ==> CardOf(rows[i], json) == Some(r.value.cards[i])
  {
    match CardsOf(rows, json)
    case None => None
    case Some(cs) => Some(CardsModel(cs))
  }

  function CardDaoOf(cw: CardWithPrizesEntity, json: Json): Option<CardDao> {
    match json.decode(cw.card.matrixJson)
    case None => None
    case Some(matrix) =>
      var c := cw.card.color;
      Some(CardDao(cw.card.id, cw.card.name, matrix, PrizeDaosOf(cw.prizes),
        ColorDao(c.background, c.backgroundGradient1, c.backgroundGradient2,
          c.backgroundGradient3, c.titleColor, c.textColor, c.borderColor),
        cw.card.bet))
  }

  function PrizeDaosOf(rows: seq<PrizeEntity>): (ps: seq<PrizeDao>)
    ensures |ps| == |rows|
  {
    if rows == [] then []
    else [PrizeDao(rows[0].id, rows[0].title, rows[0].amount, rows[0].prizeType, rows[0].number)] + PrizeDaosOf(rows[1..])
  }

  function CardDaosOf(rows: seq<CardWithPrizesEntity>, json: Json): Option<seq<CardDao>> {
    if rows == [] then Some([])
    else
      match CardDaoOf(rows[0], json)
      case None => None
      case Some(c) =>
        match CardDaosOf(rows[1..], json)
        case None => None
        case Some(cs) => Some([c] + cs)
  }

  /**
   * `asCardsDao`: the same conversion as `AsCardsModel`, into the plain shape;
   * it throws exactly when some stored matrix does not decode, and otherwise
   * gives one card per row.
   */
  function AsCardsDao(rows: seq<CardWithPrizesEntity>, json: Json): (r: Option<CardsDao>)
    ensures r.Some? <==> AllDecode(rows, json)
    ensures r.Some? ==> |r.value.cards| == |rows|
  {
    CardDaosAgree(rows, json);
    match CardDaosOf(rows, json)
    case None => None
    case Some(cs) => Some(CardsDao(cs))
  }

  // ---- The two read shapes agree ----

  function PrizeAsDao(p: Prize): PrizeDao {
    PrizeDao(p.id, p.title, p.amount, p.prizeType, p.number)
  }

  function PrizesAsDao(ps: seq<Prize>): seq<PrizeDao> {
    if ps == [] then [] else [PrizeAsDao(ps[0])] + PrizesAsDao(ps[1..])
  }

  function CardAsDao(c: Card): CardDao {
    var k := c.colors;
    CardDao(c.id, c.name, c.matrix, PrizesAsDao(c.prizes),
      ColorDao(k.background, k.backgroundGradient1, k.backgroundGradient2,
        k.backgroundGradient3, k.titleColor, k.textColor, k.borderColor),
      c.bet)
  }

  function CardsAsDao(cs: seq<Card>): (ds: seq<CardDao>)
    ensures |ds| == |cs|
  {
    if cs == [] then [] else [CardAsDao(cs[0])] + CardsAsDao(cs[1..])
  }

  lemma {:induction false} PrizeDaosAgree(rows: seq<PrizeEntity>)
    ensures PrizeDaosOf(rows) == PrizesAsDao(PrizesOf(rows))
  {
    if rows != [] {
      PrizeDaosAgree(rows[1..]);
      assert PrizesOf(rows)[1..] == PrizesOf(rows[1..]);
    }
  }

  lemma {:induction false} CardDaosAgree(rows: seq<CardWithPrizesEntity>, json: Json)
    ensures CardDaosOf(rows, json).Some? <==> CardsOf(rows, json).Some?
    ensures CardsOf(rows, json).Some? ==> CardDaosOf(rows, json).value == CardsAsDao(CardsOf(rows, json).value)
  {
    if rows != [] {
      CardDaosAgree(rows[1..], json);
      PrizeDaosAgree(rows[0].prizes);
      if CardsOf(rows, json).Some? {
        var cs := CardsOf(rows, json).value;
        assert cs == [CardOf(rows[0], json).value] + CardsOf(rows[1..], json).value;
        assert cs[1..] == CardsOf(rows[1..], json).value;
      }
    }
  }

  /**
   * `asCardsDao` and `asCardsModel` read the same rows the same way: both
   * throw together, and otherwise the plain shape is the model field for field.
   */
  lemma DaoAgreesWithModel(rows: seq<CardWithPrizesEntity>, json: Json)
    ensures AsCardsDao(rows, json).Some? <==> AsCardsModel(rows, json).Some?
    ensures AsCardsModel(rows, json).Some? ==>
      AsCardsDao(rows, json).value.cards == CardsAsDao(AsCardsModel(rows, json).value.cards)
  {
    CardDaosAgree(rows, json);
  }

  // ---- Writing then reading gives the model back ----

  predicate DistinctIds(cards: seq<Card>) {
    forall i, j :: 0 <= i < j < |cards| ==> cards[i].id != cards[j].id
  }

  /** Selecting one card's id from a card's own prize rows keeps all or nothing. */
  lemma {:induction false} WithCardIdOfRows(cardId: int, ps: seq<Prize>, id: int)
    ensures WithCardId(PrizeRowsFrom(cardId, ps), id) == if cardId == id then PrizeRowsFrom(cardId, ps) else []
  {
    if ps != [] {
      WithCardIdOfRows(cardId, ps[1..], id);
      assert PrizeRowsFrom(cardId, ps)[1..] == PrizeRowsFrom(cardId, ps[1..]);
    }
  }

  lemma {:induction false} WithCardIdConcat(xs: seq<PrizeEntity>, ys: seq<PrizeEntity>, id: int)
    ensures WithCardId(xs + ys, id) == WithCardId(xs, id) + WithCardId(ys, id)
  {
    if xs == [] {
      assert xs + ys == ys;
    } else {
      var head := if xs[0].cardId == id then [xs[0]] else [];
      calc {
        WithCardId(xs + ys, id);
        { assert xs + ys == [xs[0]] + (xs[1..] + ys);
          WithCardIdCons(xs[0], xs[1..] + ys, id); }
        head + WithCardId(xs[1..] + ys, id);
        { WithCardIdConcat(xs[1..], ys, id); }
        head + (WithCardId(xs[1..], id) + WithCardId(ys, id));
        (head + WithCardId(xs[1..], id)) + WithCardId(ys, id);
        { assert xs == [xs[0]] + xs[1..];
          WithCardIdCons(xs[0], xs[1..], id); }
        WithCardId(xs, id) + WithCardId(ys, id);
      }
    }
  }

  /** Selecting from a table with a first row: that row if it carries the id, then the selection from the rest. */
  lemma WithCardIdCons(x: PrizeEntity, rest: seq<PrizeEntity>, id: int)
    ensures WithCardId([x] + rest, id) == (if x.cardId == id then [x] else []) + WithCardId(rest, id)
  {
    assert ([x] + rest)[0] == x && ([x] + rest)[1..] == rest;
  }

  /** With distinct ids, the rows carrying card `k`'s id are exactly the rows written for card `k`. */
  lemma {:induction false} OwnRows(cards: seq<Card>, k: int)
    requires DistinctIds(cards)
    requires 0 <= k < |cards|
    ensures WithCardId(AllPrizeRows(cards), cards[k].id) == PrizeRows(cards[k])
  {
    var id := cards[k].id;
    WithCardIdConcat(PrizeRows(cards[0]), AllPrizeRows(cards[1..]), id);
    WithCardIdOfRows(cards[0].id, cards[0].prizes, id);
    DistinctTail(cards);
    if k == 0 {
      NoRowsFor(cards[1..], id);
    } else {
      OwnRows(cards[1..], k - 1);
      assert cards[1..][k - 1] == cards[k];
    }
  }

  /** Dropping the first card keeps the ids distinct, and no later card has the first card's id. */
  lemma DistinctTail(cards: seq<Card>)
    requires DistinctIds(cards) && cards != []
    ensures DistinctIds(cards[1..])
    ensures forall i :: 0 <= i < |cards[1..]| ==> cards[1..][i].id != cards[0].id
  {
    forall i, j | 0 <= i < j < |cards[1..]| ensures cards[1..][i].id != cards[1..][j].id {
      assert cards[1..][i] == cards[i + 1] && cards[1..][j] == cards[j + 1];
    }
    forall i | 0 <= i < |cards[1..]| ensures cards[1..][i].id != cards[0].id {
      assert cards[1..][i] == cards[i + 1];
    }
  }

  /** No rows are written for an id no card has. */
  lemma {:induction false} NoRowsFor(cards: seq<Card>, id: int)
    requires forall i :: 0 <= i < |cards| ==> cards[i].id != id
    ensures WithCardId(AllPrizeRows(cards), id) == []
  {
    if cards != [] {
      WithCardIdConcat(PrizeRows(cards[0]), AllPrizeRows(cards[1..]), id);
      WithCardIdOfRows(cards[0].id, cards[0].prizes, id);
      NoRowsFor(cards[1..], id);
    }
  }

  lemma PrizesBack(c: Card)
    ensures PrizesOf(PrizeRows(c)) == c.prizes
  {
  }

  /**
   * Storing a model (card rows and prize rows) and reading the rows back,
   * each card row with the prize rows of its id, yields the model again,
   * provided the serializer reads back each matrix it wrote and no two cards
   * share an id.
   */
  lemma {:induction false} StoreThenLoad(m: CardsModel, json: Json)
    requires DistinctIds(m.cards)
    requires forall i :: 0 <= i < |m.cards| ==> RoundTrips(json, m.cards[i].matrix)
    ensures AsCardsModel(Relate(AsCardEntity(m, json), AsPrizeEntity(m)), json) == Some(m)
  {
    var rows := Relate(AsCardEntity(m, json), AsPrizeEntity(m));
    forall i | 0 <= i < |rows|
      ensures CardOf(rows[i], json) == Some(m.cards[i])
    {
      OwnRows(m.cards, i);
      PrizesBack(m.cards[i]);
    }
    assert AllDecode(rows, json);
    var back := AsCardsModel(rows, json).value;
    assert forall i :: 0 <= i < |rows| ==> back.cards[i] == m.cards[i];
    assert back.cards == m.cards;
  }

  /** The number of prizes of the cards whose id is `id`. */
  function PrizesWithId(cards: seq<Card>, id: int): nat {
    if cards == [] then 0
    else (if cards[0].id == id then |cards[0].prizes| else 0) + PrizesWithId(cards[1..], id)
  }

  /** The prize rows carrying an id are as many as the prizes of all cards with that id. */
  lemma {:induction false} SelectedCount(cards: seq<Card>, id: int)
    ensures |WithCardId(AllPrizeRows(cards), id)| == PrizesWithId(cards, id)
  {
    if cards != [] {
      WithCardIdConcat(PrizeRows(cards[0]), AllPrizeRows(cards[1..]), id);
      WithCardIdOfRows(cards[0].id, cards[0].prizes, id);
      SelectedCount(cards[1..], id);
    }
  }

  lemma {:induction false} PrizesWithIdAtLeast(cards: seq<Card>, id: int, k: int)
    requires 0 <= k < |cards| && cards[k].id == id
    ensures PrizesWithId(cards, id) >= |cards[k].prizes|
  {
    if k > 0 {
      assert cards[1..][k - 1] == cards[k];
      PrizesWithIdAtLeast(cards[1..], id, k - 1);
    }
  }

  lemma {:induction false} PrizesWithIdAtLeastTwo(cards: seq<Card>, id: int, i: int, j: int)
    requires 0 <= i < j < |cards| && cards[i].id == id && cards[j].id == id
    ensures PrizesWithId(cards, id) >= |cards[i].prizes| + |cards[j].prizes|
  {
    assert cards[1..][j - 1] == cards[j];
    if i == 0 {
      PrizesWithIdAtLeast(cards[1..], id, j - 1);
    } else {
      assert cards[1..][i - 1] == cards[i];
      PrizesWithIdAtLeastTwo(cards[1..], id, i - 1, j - 1);
    }
  }

  /**
   * Distinct ids are needed: when two cards share an id and one of them has a
   * prize, the other card reads that prize back as well, so storing and
   * loading never gives the model again, whatever the serializer does.
   */
  lemma SharedIdMixesPrizes(m: CardsModel, json: Json, i: int, j: int)
    requires 0 <= i < |m.cards| && 0 <= j < |m.cards| && i != j
    requires m.cards[i].id == m.cards[j].id && m.cards[i].prizes != []
    ensures AsCardsModel(Relate(AsCardEntity(m, json), AsPrizeEntity(m)), json) != Some(m)
  {
    var id := m.cards[j].id;
    var rows := Relate(AsCardEntity(m, json), AsPrizeEntity(m));
    SelectedCount(m.cards, id);
    if i < j {
      PrizesWithIdAtLeastTwo(m.cards, id, i, j);
    } else {
      PrizesWithIdAtLeastTwo(m.cards, id, j, i);
    }
    assert AsCardEntity(m, json)[j].id == id;
    assert |PrizesOf(rows[j].prizes)| != |m.cards[j].prizes|;
  }
}
