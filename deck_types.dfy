/**
 * The game's value types (frontend/src/types/deck.ts): phases and steps, spell
 * effects, activated abilities, cards and the per-player turn state with its
 * six-bucket mana pool.
 */
module DeckTypes {
  import opened Common

  datatype Phase = Beginning | PrecombatMain | Combat | PostcombatMain | Ending

  datatype Step =
    | Untap | Upkeep | Draw
    | BeginningOfCombat | DeclareAttackers | DeclareBlockers
    | FirstStrikeDamage | CombatDamage | EndOfCombat
    | EndStep | Cleanup

  datatype EffectType =
    | DamageEffect | DrawEffect | DestroyEffect | ExileEffect | BounceEffect
    | BuffEffect | DebuffEffect | LifeGainEffect | LifeLossEffect
    | SearchEffect | ScryEffect | ManaEffect

  datatype TargetType =
    | CreatureTarget | PlayerTarget | LandTarget | ArtifactTarget
    | EnchantmentTarget | SpellTarget | AnyTarget | CreatureOrPlayerTarget

  /**
   * What a target id string denotes: a player id, or `${card.id}-${placedAt}`
   * for a permanent on the battlefield.
   */
  datatype TargetId = PlayerRef(playerId: string) | PermanentRef(cardId: int, placedAt: nat)

  datatype SpellEffect = SpellEffect(
    effectType: EffectType,
    value: Option<nat>,
    targetType: Option<TargetType>,
    description: string,
    requiresTarget: Option<bool>,
    targets: Option<seq<TargetId>>)

  /** `cost` is "T" for a tap cost, otherwise a number of generic mana as text. */
  datatype ActivatedAbility = ActivatedAbility(id: string, cost: string, effect: SpellEffect, description: string)

  /** The card fields the game reads; display-only fields are not modelled. */
  datatype Card = Card(
    id: int,
    name: string,
    manaCost: Option<string>,
    cmc: Option<nat>,
    typeLine: Option<string>,
    text: Option<string>,
    power: Option<string>,
    toughness: Option<string>,
    keywords: Option<seq<string>>,
    effects: Option<seq<SpellEffect>>,
    activatedAbilities: Option<seq<ActivatedAbility>>,
    quantity: Option<int>)

  /** `${card.id}-${index}`: a card id and its position in a battlefield array. */
  datatype InstId = InstId(cardId: int, slot: nat)

  datatype Color = White | Blue | Black | Red | Green | Colorless

  datatype ManaPool = ManaPool(white: nat, blue: nat, black: nat, red: nat, green: nat, colorless: nat)

  datatype ManaSource = ManaSource(landId: InstId, manaType: Color, available: bool)

  datatype TurnState = TurnState(
    turnNumber: int,
    currentPhase: Phase,
    currentStep: Step,
    isActivePlayer: bool,
    hasDrawnForTurn: bool,
    hasPlayedLand: bool,
    maxHandSize: int,
    manaPool: ManaPool,
    landsTapped: bool,
    tappedLands: seq<InstId>,
    /** An insertion-ordered object keyed by land instance id. */
    manaSources: seq<ManaSource>,
    landManaUsed: seq<InstId>,
    hasUntappedThisTurn: bool,
    hasResolvedUpkeep: bool,
    hasResolvedEndStep: bool)

  /** The fields of a stored deck that the game reads. */
  datatype Deck = Deck(id: int, name: string, description: string, commanderId: Option<string>, cards: seq<Card>)

  const EmptyPool := ManaPool(0, 0, 0, 0, 0, 0)

  function Bucket(p: ManaPool, c: Color): nat
  {
    match c
    case White => p.white
    case Blue => p.blue
    case Black => p.black
    case Red => p.red
    case Green => p.green
    case Colorless => p.colorless
  }

  function WithBucket(p: ManaPool, c: Color, n: nat): (r: ManaPool)
    ensures Bucket(r, c) == n
    ensures forall d :: d != c ==> Bucket(r, d) == Bucket(p, d)
  {
    match c
    case White => p.(white := n)
    case Blue => p.(blue := n)
    case Black => p.(black := n)
    case Red => p.(red := n)
    case Green => p.(green := n)
    case Colorless => p.(colorless := n)
  }

  /** The six buckets added up. */
  function Total(p: ManaPool): nat
  {
    p.white + p.blue + p.black + p.red + p.green + p.colorless
  }

  lemma TotalWithBucket(p: ManaPool, c: Color, n: nat)
    ensures Total(WithBucket(p, c, n)) == Total(p) - Bucket(p, c) + n
  {
  }

  /** A pool is determined by its six buckets. */
  lemma PoolExtensional(p: ManaPool, q: ManaPool)
    requires forall d :: Bucket(p, d) == Bucket(q, d)
    ensures p == q
  {
    assert Bucket(p, White) == Bucket(q, White) && Bucket(p, Blue) == Bucket(q, Blue);
    assert Bucket(p, Black) == Bucket(q, Black) && Bucket(p, Red) == Bucket(q, Red);
    assert Bucket(p, Green) == Bucket(q, Green) && Bucket(p, Colorless) == Bucket(q, Colorless);
  }
}
