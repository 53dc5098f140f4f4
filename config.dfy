/** Game tables of `core/config.py`: the ten cell-type codes, their four
    semantic groups, the lethal types, the arrangement selectors, the
    difficulty table, the cell colours and the win/lose codes.
    These codes are NOT the ones the engine uses (see module CoreEngine). */
module Config {
  import opened PyRuntime

  // Cell-type codes as the configuration numbers them.
  const FIELD_TYPE_NONE := 0
  const FIELD_TYPE_EATS1 := 1
  const FIELD_TYPE_EATS2 := 2
  const FIELD_TYPE_EATS3 := 3
  const FIELD_TYPE_EATS4 := 4
  const FIELD_TYPE_EATS5 := 5
  const FIELD_TYPE_HEAD := 6
  const FIELD_TYPE_BODY := 7
  const FIELD_TYPE_HOLE := 8
  const FIELD_TYPE_ROCK := 9

  /** One value per cell-type code. */
  datatype FieldType = Nothing | Eats1 | Eats2 | Eats3 | Eats4 | Eats5 | Head | Body | Hole | Rock

  /** The integer code of a cell type. */
  function Code(t: FieldType): (c: int)
    ensures FIELD_TYPE_NONE <= c <= FIELD_TYPE_ROCK
  {
    match t
    case Nothing => FIELD_TYPE_NONE
    case Eats1 => FIELD_TYPE_EATS1
    case Eats2 => FIELD_TYPE_EATS2
    case Eats3 => FIELD_TYPE_EATS3
    case Eats4 => FIELD_TYPE_EATS4
    case Eats5 => FIELD_TYPE_EATS5
    case Head => FIELD_TYPE_HEAD
    case Body => FIELD_TYPE_BODY
    case Hole => FIELD_TYPE_HOLE
    case Rock => FIELD_TYPE_ROCK
  }

  /** The cell type an integer code stands for, if any. */
  function FromCode(c: int): (r: Option<FieldType>)
    ensures r.Some? <==> FIELD_TYPE_NONE <= c <= FIELD_TYPE_ROCK
  {
    if c == FIELD_TYPE_NONE then Some(Nothing)
    else if c == FIELD_TYPE_EATS1 then Some(Eats1)
    else if c == FIELD_TYPE_EATS2 then Some(Eats2)
    else if c == FIELD_TYPE_EATS3 then Some(Eats3)
    else if c == FIELD_TYPE_EATS4 then Some(Eats4)
    else if c == FIELD_TYPE_EATS5 then Some(Eats5)
    else if c == FIELD_TYPE_HEAD then Some(Head)
    else if c == FIELD_TYPE_BODY then Some(Body)
    else if c == FIELD_TYPE_HOLE then Some(Hole)
    else if c == FIELD_TYPE_ROCK then Some(Rock)
    else None
  }

  /** Decoding the code of a type gives the type back. */
  lemma CodeRoundTrip(t: FieldType)
    ensures FromCode(Code(t)) == Some(t)
  {
  }

  /** Every code in 0..9 decodes to a type whose code it is. */
  lemma FromCodeRoundTrip(c: int)
    requires FIELD_TYPE_NONE <= c <= FIELD_TYPE_ROCK
    ensures FromCode(c).Some? && Code(FromCode(c).value) == c
  {
  }

  /** The ten codes are pairwise distinct. */
  lemma CodesDistinct(t: FieldType, u: FieldType)
    ensures Code(t) == Code(u) ==> t == u
  {
    CodeRoundTrip(t);
    CodeRoundTrip(u);
  }

  // The names of the semantic groups.
  const FIELD_GROUP_EMPTY := "empty"
  const FIELD_GROUP_BOA := "boa"
  const FIELD_GROUP_EATS := "eats"
  const FIELD_GROUP_BARRIER := "barrier"

  /** The four semantic groups of cell types. */
  datatype FieldGroup = Empty | Boa | Eats | Barrier

  function GroupName(g: FieldGroup): (name: string)
    ensures name in {FIELD_GROUP_EMPTY, FIELD_GROUP_BOA, FIELD_GROUP_EATS, FIELD_GROUP_BARRIER}
  {
    match g
    case Empty => FIELD_GROUP_EMPTY
    case Boa => FIELD_GROUP_BOA
    case Eats => FIELD_GROUP_EATS
    case Barrier => FIELD_GROUP_BARRIER
  }

  /** The members of each group, in the order the configuration lists them. */
  function AreaTypes(g: FieldGroup): (members: seq<FieldType>)
    ensures g == Empty ==> forall t :: t in members <==> Code(t) == FIELD_TYPE_NONE
    ensures g == Eats ==> forall t :: t in members <==> FIELD_TYPE_EATS1 <= Code(t) <= FIELD_TYPE_EATS5
    ensures g == Boa ==> forall t :: t in members <==> Code(t) in {FIELD_TYPE_HEAD, FIELD_TYPE_BODY}
    ensures g == Barrier ==> forall t :: t in members <==> Code(t) in {FIELD_TYPE_HOLE, FIELD_TYPE_ROCK}
  {
    match g
    case Empty => [Nothing]
    case Boa => [Head, Body]
    case Eats => [Eats1, Eats2, Eats3, Eats4, Eats5]
    case Barrier => [Hole, Rock]
  }

  /** Group names are distinct, so the dictionary has four keys. */
  lemma GroupNamesDistinct(g: FieldGroup, h: FieldGroup)
    ensures GroupName(g) == GroupName(h) ==> g == h
  {
  }

  /** The groups partition the cell types: each type lies in exactly one. */
  lemma AreaTypesPartition(t: FieldType)
    ensures exists g :: t in AreaTypes(g)
    ensures forall g, h :: t in AreaTypes(g) && t in AreaTypes(h) ==> g == h
  {
    match t
    case Nothing => assert t in AreaTypes(Empty);
    case Eats1 => assert t in AreaTypes(Eats);
    case Eats2 => assert t in AreaTypes(Eats);
    case Eats3 => assert t in AreaTypes(Eats);
    case Eats4 => assert t in AreaTypes(Eats);
    case Eats5 => assert t in AreaTypes(Eats);
    case Head => assert t in AreaTypes(Boa);
    case Body => assert t in AreaTypes(Boa);
    case Hole => assert t in AreaTypes(Barrier);
    case Rock => assert t in AreaTypes(Barrier);
  }

  /** The cell types the head must not enter: the boa's own cells and the barriers. */
  const DeathTypes: seq<FieldType> := AreaTypes(Boa) + AreaTypes(Barrier)

  lemma DeathTypesExact(t: FieldType)
    ensures t in DeathTypes <==> t in AreaTypes(Boa) || t in AreaTypes(Barrier)
    ensures t in DeathTypes <==> Code(t) in {6, 7, 8, 9}
    ensures t in DeathTypes ==> t !in AreaTypes(Empty) && t !in AreaTypes(Eats)
  {
  }

  // Initial-layout algorithms.
  const ARRANGE_HELIX := 0
  const ARRANGE_ZIGZAG := 1
  const ArrangeTypes: seq<int> := [ARRANGE_HELIX, ARRANGE_ZIGZAG]

  lemma ArrangeTypesExact()
    ensures |ArrangeTypes| == 2 && ArrangeTypes[0] != ArrangeTypes[1]
    ensures forall a :: a in ArrangeTypes <==> a == ARRANGE_HELIX || a == ARRANGE_ZIGZAG
  {
  }

  // Difficulty levels and their settings.
  const DIFF_VERY_EASY := 1
  const DIFF_EASY := 2
  const DIFF_NORMAL := 3
  const DIFF_HARD := 4
  const DIFF_VERY_HARD := 5

  /** One row of the difficulty table: the starting tick interval, whether the
      speed stays fixed, the barrier-streak factor and two display names. */
  datatype Difficulty = Difficulty(initialSpeed: int, freeze: bool, barriers: int, engName: string, ruName: string)

  const Difficultys: map<int, Difficulty> := map[
    DIFF_VERY_EASY := Difficulty(1000, true, 1, "Very Easy", "Очень Легкая"),
    DIFF_EASY := Difficulty(800, true, 2, "Easy", "Легкая"),
    DIFF_NORMAL := Difficulty(650, true, 4, "Normal", "Нормальная"),
    DIFF_HARD := Difficulty(500, true, 6, "Hard", "Тяжелая"),
    DIFF_VERY_HARD := Difficulty(1000, false, 2, "Very Hard", "Очень Тяжелая")
  ]

  /** The lower bound on the tick interval. */
  const MinSpeed := 100

  lemma DifficultysWellFormed()
    ensures Difficultys.Keys == {DIFF_VERY_EASY, DIFF_EASY, DIFF_NORMAL, DIFF_HARD, DIFF_VERY_HARD}
    ensures forall k :: k in Difficultys.Keys <==> 1 <= k <= 5
    ensures forall k | k in Difficultys :: Difficultys[k].initialSpeed > 0 && Difficultys[k].barriers > 0
    ensures forall k | k in Difficultys :: Difficultys[k].initialSpeed >= MinSpeed
  {
  }

  /** Colour of a cell: one hex colour, or for the body a pair of gradient ends. */
  datatype Color = Solid(hex: string) | Gradient(first: string, last: string)

  const Colors: map<FieldType, Color> := map[
    Nothing := Solid("#ece9d8"),
    Eats1 := Solid("#ee7600"),
    Eats2 := Solid("#ffff00"),
    Eats3 := Solid("#cd1076"),
    Eats4 := Solid("#0000cd"),
    Eats5 := Solid("#cd0000"),
    Head := Solid("#008b00"),
    Body := Gradient("#7fff00", "#ff1493"),
    Hole := Solid("#171717"),
    Rock := Solid("#5e6965")
  ]

  /** Every cell type has a colour; only the body's is a gradient. */
  lemma ColorsComplete(t: FieldType)
    ensures t in Colors
    ensures Colors[t].Gradient? <==> t == Body
  {
  }

  const WIN_CODE := 0
  const LOSE_CODE := 1

  lemma GameOverCodesDistinct()
    ensures WIN_CODE != LOSE_CODE
  {
  }
}
