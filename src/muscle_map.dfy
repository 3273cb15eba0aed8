/*
 * Exercise -> muscle activation resolver (src/lib/muscle-map.ts).
 *
 * The canonical table maps each exercise name (exact, case-sensitive) to the
 * muscles it trains with a ratio in (0, 1]. `GetActivations` tries the exact
 * name first and otherwise tests the lower-cased name against an ordered list
 * of substring rules; the first rule that matches names the table entry to
 * return, and a name that matches no rule gets the empty list.
 */
module MuscleMap {
  import opened Text
  import opened Js

  /** The muscles the table refers to (the `MuscleType.*` members it uses). */
  datatype Muscle =
    | MidChest | UpperChest | LowerChest
    | FrontDelt | SideDelt | RearDelt
    | TricepLongHead | TricepShortHead
    | BicepLongHead | BicepShortHead | Brachialis | Forearm
    | Lats | UpperBack | LowerBack | Trapezius
    | Quadriceps | Hamstring | Gluteal | Calves
    | UpperAbs | LowerAbs | Obliques

  /**
   * One `{ muscle, ratio }` entry. Every ratio in the table has one decimal,
   * so it is kept exactly as a whole number of tenths.
   */
  datatype Activation = Activation(muscle: Muscle, tenths: int)

  function Ratio(a: Activation): real
  {
    a.tenths as real / 10.0
  }

  /**
   * A table entry. Its type carries the table invariant: at least one muscle,
   * every ratio in (0, 1] (1 to 10 tenths), and no muscle listed twice.
   */
  type Entry = acts: seq<Activation> | WellFormedEntry(acts) witness [Activation(Calves, 10)]

  predicate WellFormedEntry(acts: seq<Activation>)
  {
    |acts| > 0 && DistinctRatios(acts)
  }

  /** Ratios in (0, 1], muscles pairwise distinct (checked head to tail). */
  predicate DistinctRatios(acts: seq<Activation>)
    decreases |acts|
  {
    |acts| == 0 ||
    (0 < acts[0].tenths <= 10
     && (forall j | 1 <= j < |acts| :: acts[j].muscle != acts[0].muscle)
     && DistinctRatios(acts[1..]))
  }

  // The entries of `EXERCISE_MAP`, one constant per exercise.
  const BenchPressEntry: Entry :=
    [Activation(MidChest, 10), Activation(LowerChest, 6), Activation(UpperChest, 4),
                      Activation(FrontDelt, 5), Activation(TricepLongHead, 2), Activation(TricepShortHead, 3)]
  const InclineBenchPressEntry: Entry :=
    [Activation(UpperChest, 10), Activation(MidChest, 5), Activation(FrontDelt, 7),
                              Activation(TricepLongHead, 2), Activation(TricepShortHead, 3)]
  const DeclineBenchPressEntry: Entry :=
    [Activation(LowerChest, 10), Activation(MidChest, 6),
                              Activation(TricepLongHead, 3), Activation(TricepShortHead, 3)]
  const PushUpsEntry: Entry :=
    [Activation(MidChest, 10), Activation(LowerChest, 5), Activation(UpperChest, 3),
                   Activation(FrontDelt, 4), Activation(TricepLongHead, 2), Activation(TricepShortHead, 3)]
  const CableFlyesEntry: Entry :=
    [Activation(MidChest, 10), Activation(UpperChest, 4), Activation(LowerChest, 4)]
  const PullUpsEntry: Entry :=
    [Activation(Lats, 10), Activation(UpperBack, 6), Activation(BicepLongHead, 4),
                   Activation(BicepShortHead, 5), Activation(Brachialis, 3), Activation(Forearm, 3)]
  const LatPulldownEntry: Entry :=
    [Activation(Lats, 10), Activation(UpperBack, 4), Activation(BicepLongHead, 3),
                       Activation(BicepShortHead, 4), Activation(Brachialis, 3)]
  const SeatedRowsEntry: Entry :=
    [Activation(UpperBack, 10), Activation(Lats, 7), Activation(BicepLongHead, 3),
                      Activation(BicepShortHead, 3), Activation(RearDelt, 5)]
  const BarbellRowsEntry: Entry :=
    [Activation(UpperBack, 10), Activation(Lats, 8), Activation(BicepLongHead, 3),
                       Activation(BicepShortHead, 3), Activation(RearDelt, 5), Activation(LowerBack, 3)]
  const SquatEntry: Entry :=
    [Activation(Quadriceps, 10), Activation(Gluteal, 7), Activation(LowerBack, 3),
                Activation(UpperAbs, 2), Activation(LowerAbs, 2)]
  const DeadliftEntry: Entry :=
    [Activation(Hamstring, 8), Activation(Gluteal, 10), Activation(LowerBack, 7),
                   Activation(Trapezius, 3), Activation(Forearm, 3)]
  const LegPressEntry: Entry :=
    [Activation(Quadriceps, 10), Activation(Gluteal, 6), Activation(Hamstring, 3)]
  const RomanianDeadliftEntry: Entry :=
    [Activation(Hamstring, 10), Activation(Gluteal, 8), Activation(LowerBack, 5)]
  const LegExtensionsEntry: Entry :=
    [Activation(Quadriceps, 10)]
  const LegCurlsEntry: Entry :=
    [Activation(Hamstring, 10)]
  const BicepCurlsEntry: Entry :=
    [Activation(BicepLongHead, 8), Activation(BicepShortHead, 10),
                      Activation(Brachialis, 4), Activation(Forearm, 2)]
  const HammerCurlsEntry: Entry :=
    [Activation(Brachialis, 10), Activation(BicepLongHead, 6),
                       Activation(BicepShortHead, 4), Activation(Forearm, 4)]
  const PreacherCurlsEntry: Entry :=
    [Activation(BicepShortHead, 10), Activation(BicepLongHead, 6), Activation(Brachialis, 5)]
  const InclineCurlsEntry: Entry :=
    [Activation(BicepLongHead, 10), Activation(BicepShortHead, 5), Activation(Brachialis, 3)]
  const TricepExtensionsEntry: Entry :=
    [Activation(TricepLongHead, 10), Activation(TricepShortHead, 6)]
  const TricepPushdownsEntry: Entry :=
    [Activation(TricepShortHead, 10), Activation(TricepLongHead, 5)]
  const SkullCrushersEntry: Entry :=
    [Activation(TricepLongHead, 10), Activation(TricepShortHead, 7)]
  const DipsEntry: Entry :=
    [Activation(TricepLongHead, 8), Activation(TricepShortHead, 8), Activation(LowerChest, 6),
               Activation(MidChest, 4), Activation(FrontDelt, 3)]
  const OverheadPressEntry: Entry :=
    [Activation(FrontDelt, 10), Activation(SideDelt, 5), Activation(TricepLongHead, 4),
                         Activation(TricepShortHead, 4), Activation(UpperBack, 2)]
  const LateralRaisesEntry: Entry :=
    [Activation(SideDelt, 10), Activation(FrontDelt, 2), Activation(Trapezius, 3)]
  const FrontRaisesEntry: Entry :=
    [Activation(FrontDelt, 10), Activation(SideDelt, 2), Activation(UpperChest, 2)]
  const FacePullsEntry: Entry :=
    [Activation(RearDelt, 10), Activation(Trapezius, 5), Activation(UpperBack, 3)]
  const ReverseFlyesEntry: Entry :=
    [Activation(RearDelt, 10), Activation(UpperBack, 4), Activation(Trapezius, 3)]
  const CrunchesEntry: Entry :=
    [Activation(UpperAbs, 10), Activation(LowerAbs, 3)]
  const LegRaisesEntry: Entry :=
    [Activation(LowerAbs, 10), Activation(UpperAbs, 3)]
  const PlanksEntry: Entry :=
    [Activation(UpperAbs, 7), Activation(LowerAbs, 7), Activation(Obliques, 5)]
  const CalfRaisesEntry: Entry :=
    [Activation(Calves, 10)]
  const ShrugsEntry: Entry :=
    [Activation(Trapezius, 10)]

  /** The canonical exercises: the keys of `EXERCISE_MAP`. */
  datatype Exercise =
    | BenchPress
    | InclineBenchPress
    | DeclineBenchPress
    | PushUps
    | CableFlyes
    | PullUps
    | LatPulldown
    | SeatedRows
    | BarbellRows
    | Squat
    | Deadlift
    | LegPress
    | RomanianDeadlift
    | LegExtensions
    | LegCurls
    | BicepCurls
    | HammerCurls
    | PreacherCurls
    | InclineCurls
    | TricepExtensions
    | TricepPushdowns
    | SkullCrushers
    | Dips
    | OverheadPress
    | LateralRaises
    | FrontRaises
    | FacePulls
    | ReverseFlyes
    | Crunches
    | LegRaises
    | Planks
    | CalfRaises
    | Shrugs

  /** The exact key string of each canonical exercise. */
  function Name(e: Exercise): string
  {
    match e
    case BenchPress => "Bench Press"
    case InclineBenchPress => "Incline Bench Press"
    case DeclineBenchPress => "Decline Bench Press"
    case PushUps => "Push-ups"
    case CableFlyes => "Cable Flyes"
    case PullUps => "Pull-ups"
    case LatPulldown => "Lat Pulldown"
    case SeatedRows => "Seated Rows"
    case BarbellRows => "Barbell Rows"
    case Squat => "Squat"
    case Deadlift => "Deadlift"
    case LegPress => "Leg Press"
    case RomanianDeadlift => "Romanian Deadlift"
    case LegExtensions => "Leg Extensions"
    case LegCurls => "Leg Curls"
    case BicepCurls => "Bicep Curls"
    case HammerCurls => "Hammer Curls"
    case PreacherCurls => "Preacher Curls"
    case InclineCurls => "Incline Curls"
    case TricepExtensions => "Tricep Extensions"
    case TricepPushdowns => "Tricep Pushdowns"
    case SkullCrushers => "Skull Crushers"
    case Dips => "Dips"
    case OverheadPress => "Overhead Press"
    case LateralRaises => "Lateral Raises"
    case FrontRaises => "Front Raises"
    case FacePulls => "Face Pulls"
    case ReverseFlyes => "Reverse Flyes"
    case Crunches => "Crunches"
    case LegRaises => "Leg Raises"
    case Planks => "Planks"
    case CalfRaises => "Calf Raises"
    case Shrugs => "Shrugs"
  }

  /** The table entry of each canonical exercise. */
  function EntryOf(e: Exercise): Entry
  {
    match e
    case BenchPress => BenchPressEntry
    case InclineBenchPress => InclineBenchPressEntry
    case DeclineBenchPress => DeclineBenchPressEntry
    case PushUps => PushUpsEntry
    case CableFlyes => CableFlyesEntry
    case PullUps => PullUpsEntry
    case LatPulldown => LatPulldownEntry
    case SeatedRows => SeatedRowsEntry
    case BarbellRows => BarbellRowsEntry
    case Squat => SquatEntry
    case Deadlift => DeadliftEntry
    case LegPress => LegPressEntry
    case RomanianDeadlift => RomanianDeadliftEntry
    case LegExtensions => LegExtensionsEntry
    case LegCurls => LegCurlsEntry
    case BicepCurls => BicepCurlsEntry
    case HammerCurls => HammerCurlsEntry
    case PreacherCurls => PreacherCurlsEntry
    case InclineCurls => InclineCurlsEntry
    case TricepExtensions => TricepExtensionsEntry
    case TricepPushdowns => TricepPushdownsEntry
    case SkullCrushers => SkullCrushersEntry
    case Dips => DipsEntry
    case OverheadPress => OverheadPressEntry
    case LateralRaises => LateralRaisesEntry
    case FrontRaises => FrontRaisesEntry
    case FacePulls => FacePullsEntry
    case ReverseFlyes => ReverseFlyesEntry
    case Crunches => CrunchesEntry
    case LegRaises => LegRaisesEntry
    case Planks => PlanksEntry
    case CalfRaises => CalfRaisesEntry
    case Shrugs => ShrugsEntry
  }

  /** Every canonical exercise, in the order of `EXERCISE_MAP`. */
  const AllExercises: seq<Exercise> := [
    BenchPress,
    InclineBenchPress,
    DeclineBenchPress,
    PushUps,
    CableFlyes,
    PullUps,
    LatPulldown,
    SeatedRows,
    BarbellRows,
    Squat,
    Deadlift,
    LegPress,
    RomanianDeadlift,
    LegExtensions,
    LegCurls,
    BicepCurls,
    HammerCurls,
    PreacherCurls,
    InclineCurls,
    TricepExtensions,
    TricepPushdowns,
    SkullCrushers,
    Dips,
    OverheadPress,
    LateralRaises,
    FrontRaises,
    FacePulls,
    ReverseFlyes,
    Crunches,
    LegRaises,
    Planks,
    CalfRaises,
    Shrugs
  ]

  lemma AllExercisesListed(e: Exercise)
    ensures e in AllExercises
  {
  }

  /** The first exercise of `es` whose key is exactly `name`. */
  function FindByName(name: string, es: seq<Exercise>): (r: Option<Exercise>)
    ensures r.Some? ==> Name(r.value) == name && r.value in es
    ensures r.None? ==> forall e | e in es :: Name(e) != name
  {
    if es == [] then None
    else if Name(es[0]) == name then Some(es[0])
    else FindByName(name, es[1..])
  }

  /**
   * `EXERCISE_MAP[name]` as a key test: the canonical exercise whose key is
   * exactly `name` (case-sensitive), if any.
   */
  function Canonical(name: string): (r: Option<Exercise>)
    ensures r.Some? ==> Name(r.value) == name
    ensures r.None? ==> forall e :: Name(e) != name
  {
    var r := FindByName(name, AllExercises);
    assert r.None? ==> forall e :: Name(e) != name by {
      forall e ensures r.None? ==> Name(e) != name { AllExercisesListed(e); }
    }
    r
  }

  /** The `k`-th character from the end of `s`, or a space past its start. */
  function FromEnd(s: string, k: nat): char
  {
    if k < |s| then s[|s| - 1 - k] else ' '
  }

  /**
   * A left inverse of `Name`: the length of a key, and one character counted
   * from its end where several keys share that length, tell the keys apart.
   */
  function KeyDecode(s: string): Option<Exercise>
  {
    match |s|
    case 4 => Some(Dips)
    case 5 => Some(Squat)
    case 6 => if FromEnd(s, 1) == 'k' then Some(Planks) else Some(Shrugs)
    case 8 =>
      (match FromEnd(s, 4)
       case 'h' => Some(PushUps)
       case 'l' => Some(PullUps)
       case 'd' => Some(Deadlift)
       case _ => Some(Crunches))
    case 9 => if FromEnd(s, 1) == 's' then Some(LegPress) else Some(LegCurls)
    case 10 => if FromEnd(s, 1) == 'l' then Some(FacePulls) else Some(LegRaises)
    case 11 =>
      (match FromEnd(s, 2)
       case 'e' => Some(BenchPress)
       case 'y' => Some(CableFlyes)
       case 'o' => Some(SeatedRows)
       case 'r' => Some(BicepCurls)
       case _ => Some(CalfRaises))
    case 12 =>
      (match FromEnd(s, 3)
       case 'd' => Some(LatPulldown)
       case 'R' => Some(BarbellRows)
       case 'u' => Some(HammerCurls)
       case _ => Some(FrontRaises))
    case 13 => if FromEnd(s, 1) == 'l' then Some(InclineCurls) else Some(ReverseFlyes)
    case 14 =>
      (match FromEnd(s, 1)
       case 'n' => Some(LegExtensions)
       case 'l' => Some(PreacherCurls)
       case 'r' => Some(SkullCrushers)
       case 's' => Some(OverheadPress)
       case _ => Some(LateralRaises))
    case 16 => Some(TricepPushdowns)
    case 17 => if FromEnd(s, 0) == 't' then Some(RomanianDeadlift) else Some(TricepExtensions)
    case 19 => if FromEnd(s, 17) == 'n' then Some(InclineBenchPress) else Some(DeclineBenchPress)
    case _ => None
  }

  /** `KeyDecode` recovers every exercise from its key. */
  lemma DecodeName(e: Exercise)
    ensures KeyDecode(Name(e)) == Some(e)
  {
    match e
    case BenchPress => assert KeyDecode("Bench Press") == Some(BenchPress);
    case InclineBenchPress => assert KeyDecode("Incline Bench Press") == Some(InclineBenchPress);
    case DeclineBenchPress => assert KeyDecode("Decline Bench Press") == Some(DeclineBenchPress);
    case PushUps => assert KeyDecode("Push-ups") == Some(PushUps);
    case CableFlyes => assert KeyDecode("Cable Flyes") == Some(CableFlyes);
    case PullUps => assert KeyDecode("Pull-ups") == Some(PullUps);
    case LatPulldown => assert KeyDecode("Lat Pulldown") == Some(LatPulldown);
    case SeatedRows => assert KeyDecode("Seated Rows") == Some(SeatedRows);
    case BarbellRows => assert KeyDecode("Barbell Rows") == Some(BarbellRows);
    case Squat => assert KeyDecode("Squat") == Some(Squat);
    case Deadlift => assert KeyDecode("Deadlift") == Some(Deadlift);
    case LegPress => assert KeyDecode("Leg Press") == Some(LegPress);
    case RomanianDeadlift => assert KeyDecode("Romanian Deadlift") == Some(RomanianDeadlift);
    case LegExtensions => assert KeyDecode("Leg Extensions") == Some(LegExtensions);
    case LegCurls => assert KeyDecode("Leg Curls") == Some(LegCurls);
    case BicepCurls => assert KeyDecode("Bicep Curls") == Some(BicepCurls);
    case HammerCurls => assert KeyDecode("Hammer Curls") == Some(HammerCurls);
    case PreacherCurls => assert KeyDecode("Preacher Curls") == Some(PreacherCurls);
    case InclineCurls => assert KeyDecode("Incline Curls") == Some(InclineCurls);
    case TricepExtensions => assert KeyDecode("Tricep Extensions") == Some(TricepExtensions);
    case TricepPushdowns => assert KeyDecode("Tricep Pushdowns") == Some(TricepPushdowns);
    case SkullCrushers => assert KeyDecode("Skull Crushers") == Some(SkullCrushers);
    case Dips => assert KeyDecode("Dips") == Some(Dips);
    case OverheadPress => assert KeyDecode("Overhead Press") == Some(OverheadPress);
    case LateralRaises => assert KeyDecode("Lateral Raises") == Some(LateralRaises);
    case FrontRaises => assert KeyDecode("Front Raises") == Some(FrontRaises);
    case FacePulls => assert KeyDecode("Face Pulls") == Some(FacePulls);
    case ReverseFlyes => assert KeyDecode("Reverse Flyes") == Some(ReverseFlyes);
    case Crunches => assert KeyDecode("Crunches") == Some(Crunches);
    case LegRaises => assert KeyDecode("Leg Raises") == Some(LegRaises);
    case Planks => assert KeyDecode("Planks") == Some(Planks);
    case CalfRaises => assert KeyDecode("Calf Raises") == Some(CalfRaises);
    case Shrugs => assert KeyDecode("Shrugs") == Some(Shrugs);
  }

  /** No two exercises share a key. */
  lemma NameInjective(a: Exercise, b: Exercise)
    requires Name(a) == Name(b)
    ensures a == b
  {
    DecodeName(a);
    DecodeName(b);
  }
  /** Every key is found by the exact lookup and gives its own entry. */
  lemma KeyResolvesToItself(e: Exercise)
    ensures Canonical(Name(e)) == Some(e)
    ensures GetActivations(Name(e)) == EntryOf(e)
  {
    NameInjective(Canonical(Name(e)).value, e);
  }

  /**
   * One heuristic rule: it fires when, for some alternative, the lower-cased
   * name contains every word of that alternative; it then names a canonical exercise.
   */
  datatype Rule = Rule(anyOf: seq<seq<string>>, target: Exercise)

  /** Number of rules in the heuristic chain. */
  const RuleCount := 37

  /** The heuristic chain: rule `k` is the `k`-th test of the source, in order. */
  function RuleAt(k: nat): Rule
    requires k < RuleCount
  {
    match k
    case 0 => Rule([["incline", "curl"]], InclineCurls)
    case 1 => Rule([["incline", "bench"]], InclineBenchPress)
    case 2 => Rule([["incline", "press"]], InclineBenchPress)
    case 3 => Rule([["decline", "bench"]], DeclineBenchPress)
    case 4 => Rule([["decline", "press"]], DeclineBenchPress)
    case 5 => Rule([["bench"]], BenchPress)
    case 6 => Rule([["cable fl"]], CableFlyes)
    case 7 => Rule([["squat"]], Squat)
    case 8 => Rule([["romanian", "deadlift"]], RomanianDeadlift)
    case 9 => Rule([["rdl"]], RomanianDeadlift)
    case 10 => Rule([["deadlift"]], Deadlift)
    case 11 => Rule([["pull-up"], ["pull up"], ["pullup"], ["chin"]], PullUps)
    case 12 => Rule([["lat pull"]], LatPulldown)
    case 13 => Rule([["hammer curl"]], HammerCurls)
    case 14 => Rule([["preacher curl"]], PreacherCurls)
    case 15 => Rule([["curl"]], BicepCurls)
    case 16 => Rule([["row"]], SeatedRows)
    case 17 => Rule([["overhead", "press"]], OverheadPress)
    case 18 => Rule([["ohp"]], OverheadPress)
    case 19 => Rule([["military"]], OverheadPress)
    case 20 => Rule([["lateral raise"]], LateralRaises)
    case 21 => Rule([["front raise"]], FrontRaises)
    case 22 => Rule([["face pull"]], FacePulls)
    case 23 => Rule([["reverse fl"]], ReverseFlyes)
    case 24 => Rule([["tricep", "push"]], TricepPushdowns)
    case 25 => Rule([["skull crush"]], SkullCrushers)
    case 26 => Rule([["tricep"]], TricepExtensions)
    case 27 => Rule([["dip"]], Dips)
    case 28 => Rule([["push-up"], ["push up"], ["pushup"]], PushUps)
    case 29 => Rule([["crunch"]], Crunches)
    case 30 => Rule([["leg raise"]], LegRaises)
    case 31 => Rule([["plank"]], Planks)
    case 32 => Rule([["calf"], ["calves"]], CalfRaises)
    case 33 => Rule([["shrug"]], Shrugs)
    case 34 => Rule([["leg press"]], LegPress)
    case 35 => Rule([["leg ext"]], LegExtensions)
    case 36 => Rule([["leg curl"]], LegCurls)
    case _ => assert false; Rule([], Shrugs)
  }

  /** Index of the `'curl'` rule and of the `'leg curl'` rule. */
  const CurlRule := 15
  const LegCurlRule := 36

  predicate AllWords(s: string, words: seq<string>)
    decreases |words|
  {
    |words| == 0 || (Contains(s, words[0]) && AllWords(s, words[1..]))
  }

  predicate AnyAlternative(s: string, alternatives: seq<seq<string>>)
    decreases |alternatives|
  {
    |alternatives| > 0 && (AllWords(s, alternatives[0]) || AnyAlternative(s, alternatives[1..]))
  }

  predicate RuleMatches(r: Rule, lower: string)
  {
    AnyAlternative(lower, r.anyOf)
  }

  /** Index of the first rule, from `k` on, that matches `lower`. */
  function FirstMatchFrom(lower: string, k: nat): (r: Option<nat>)
    requires k <= RuleCount
    ensures r.Some? ==> k <= r.value < RuleCount && RuleMatches(RuleAt(r.value), lower)
    ensures r.Some? ==> forall j :: k <= j < r.value ==> !RuleMatches(RuleAt(j), lower)
    ensures r.None? ==> forall j :: k <= j < RuleCount ==> !RuleMatches(RuleAt(j), lower)
    decreases RuleCount - k
  {
    if k == RuleCount then None
    else if RuleMatches(RuleAt(k), lower) then Some(k)
    else FirstMatchFrom(lower, k + 1)
  }

  function FirstMatch(lower: string): (r: Option<nat>)
    ensures r.Some? ==> r.value < RuleCount && RuleMatches(RuleAt(r.value), lower)
    ensures r.Some? ==> forall j :: 0 <= j < r.value ==> !RuleMatches(RuleAt(j), lower)
    ensures r.None? ==> forall j :: 0 <= j < RuleCount ==> !RuleMatches(RuleAt(j), lower)
  {
    FirstMatchFrom(lower, 0)
  }

  /**
   * `getActivations`: the exact entry when the name is a key; otherwise the
   * entry of the exercise named by the first rule the lower-cased name
   * matches; otherwise [].
   */
  function GetActivations(name: string): seq<Activation>
  {
    match Canonical(name)
    case Some(e) => EntryOf(e)
    case None =>
      match FirstMatch(ToLower(name))
      case Some(k) => EntryOf(RuleAt(k).target)
      case None => []
  }

  /** Rule `k` is the first rule the lower-cased name `lower` matches. */
  predicate FirstRule(lower: string, k: nat)
  {
    k < RuleCount && RuleMatches(RuleAt(k), lower) &&
    forall j :: 0 <= j < k ==> !RuleMatches(RuleAt(j), lower)
  }

  /**
   * The three outcomes of `getActivations`: a key gets its own entry and no
   * rule is consulted; any other name gets the entry named by the first rule
   * its lower-cased form matches; and the result is [] exactly when the name
   * is no key and no rule matches it.
   */
  lemma GetActivationsOutcomes(name: string)
    ensures forall e :: Name(e) == name ==> GetActivations(name) == EntryOf(e)
    ensures (forall e :: Name(e) != name) ==>
              forall k :: FirstRule(ToLower(name), k) ==> GetActivations(name) == EntryOf(RuleAt(k).target)
    ensures GetActivations(name) == [] <==>
              (forall e :: Name(e) != name) &&
              (forall k :: 0 <= k < RuleCount ==> !RuleMatches(RuleAt(k), ToLower(name)))
    ensures GetActivations(name) != [] ==> exists e :: GetActivations(name) == EntryOf(e)
  {
    forall e | Name(e) == name ensures GetActivations(name) == EntryOf(e) {
      KeyResolvesToItself(e);
    }
    forall k | (forall e :: Name(e) != name) && FirstRule(ToLower(name), k)
      ensures GetActivations(name) == EntryOf(RuleAt(k).target)
    {
      ResolvesByFirstRule(name, k);
    }
    EmptyExactlyUnresolved(name);
  }

  /** A name that is no key resolves through its first matching rule. */
  lemma ResolvesByFirstRule(name: string, k: nat)
    requires forall e :: Name(e) != name
    requires FirstRule(ToLower(name), k)
    ensures GetActivations(name) == EntryOf(RuleAt(k).target)
  {
    var m := FirstMatch(ToLower(name));
    assert m.Some? && m.value <= k;
    assert m.value == k;
  }

  /** Every entry is non-empty, so [] means neither a key nor a matching rule. */
  lemma EmptyExactlyUnresolved(name: string)
    ensures GetActivations(name) == [] <==>
              (forall e :: Name(e) != name) &&
              (forall k :: 0 <= k < RuleCount ==> !RuleMatches(RuleAt(k), ToLower(name)))
    ensures GetActivations(name) != [] ==> exists e :: GetActivations(name) == EntryOf(e)
  {
    match Canonical(name)
    case Some(e) =>
      TableInvariant(e);
    case None =>
      match FirstMatch(ToLower(name))
      case Some(k) =>
        TableInvariant(RuleAt(k).target);
      case None =>
  }

  /** The head-to-tail check means what it says, for every position and every pair. */
  lemma {:induction false} DistinctRatiosMeans(acts: seq<Activation>)
    requires DistinctRatios(acts)
    ensures forall i :: 0 <= i < |acts| ==> 0.0 < Ratio(acts[i]) <= 1.0
    ensures forall i, j :: 0 <= i < j < |acts| ==> acts[i].muscle != acts[j].muscle
    decreases |acts|
  {
    if |acts| > 0 {
      DistinctRatiosMeans(acts[1..]);
      forall i, j | 0 <= i < j < |acts| ensures acts[i].muscle != acts[j].muscle {
        if i > 0 {
          assert acts[1..][i - 1] == acts[i] && acts[1..][j - 1] == acts[j];
        }
      }
      forall i | 0 <= i < |acts| ensures 0.0 < Ratio(acts[i]) <= 1.0 {
        if i > 0 {
          assert acts[1..][i - 1] == acts[i];
        }
      }
    }
  }

  /**
   * The table invariant: every entry lists at least one muscle, every ratio
   * lies in (0, 1], and no muscle appears twice in one entry.
   */
  lemma TableInvariant(e: Exercise)
    ensures |EntryOf(e)| > 0
    ensures forall i :: 0 <= i < |EntryOf(e)| ==> 0.0 < Ratio(EntryOf(e)[i]) <= 1.0
    ensures forall i, j :: 0 <= i < j < |EntryOf(e)| ==> EntryOf(e)[i].muscle != EntryOf(e)[j].muscle
  {
    DistinctRatiosMeans(EntryOf(e));
  }

  /** Every key starts with an upper-case letter. */
  lemma KeysCapitalised(e: Exercise)
    ensures |Name(e)| > 0 && 'A' <= Name(e)[0] <= 'Z'
  {
  }

  /** The exact lookup is case-sensitive: a name starting in lower case is never a key. */
  lemma LowerCaseNameIsNoKey(name: string)
    requires |name| > 0 && 'a' <= name[0] <= 'z'
    ensures Canonical(name).None?
  {
    if Canonical(name).Some? {
      KeysCapitalised(Canonical(name).value);
    }
  }

  /** If rule `k` matches, the chain stops at rule `k` or earlier. */
  lemma {:induction false} StopsAtOrBefore(lower: string, k: nat)
    requires k < RuleCount && RuleMatches(RuleAt(k), lower)
    ensures FirstMatch(lower).Some? && FirstMatch(lower).value <= k
  {
  }

  /** A name with both "incline" and "curl" resolves to Incline Curls, whatever else it contains. */
  lemma InclineCurlComesFirst(name: string)
    requires Canonical(name).None?
    requires Contains(ToLower(name), "incline") && Contains(ToLower(name), "curl")
    ensures GetActivations(name) == EntryOf(InclineCurls)
  {
    assert RuleMatches(RuleAt(0), ToLower(name));
  }

  /** Resolution of a non-key name through rule `k`. */
  lemma ResolvesVia(name: string, k: nat)
    requires Canonical(name).None? && FirstMatch(ToLower(name)) == Some(k)
    ensures k < RuleCount && GetActivations(name) == EntryOf(RuleAt(k).target)
  {
  }

  /** The incline conjunctions are tested before the bare "bench" rule. */
  lemma InclineBeforeBench(lower: string)
    requires Contains(lower, "incline") && !Contains(lower, "curl")
    requires Contains(lower, "bench") || Contains(lower, "press")
    ensures FirstMatch(lower).Some? && RuleAt(FirstMatch(lower).value).target == InclineBenchPress
  {
    assert !RuleMatches(RuleAt(0), lower);
    if Contains(lower, "bench") {
      assert RuleMatches(RuleAt(1), lower);
      assert FirstMatch(lower) == Some(1);
    } else {
      assert !RuleMatches(RuleAt(1), lower);
      assert RuleMatches(RuleAt(2), lower);
      assert FirstMatch(lower) == Some(2);
    }
  }

  /** The decline conjunctions are tested before the bare "bench" rule. */
  lemma DeclineBeforeBench(lower: string)
    requires Contains(lower, "decline") && !Contains(lower, "incline")
    requires Contains(lower, "bench") || Contains(lower, "press")
    ensures FirstMatch(lower).Some? && RuleAt(FirstMatch(lower).value).target == DeclineBenchPress
  {
    assert !RuleMatches(RuleAt(0), lower);
    assert !RuleMatches(RuleAt(1), lower);
    assert !RuleMatches(RuleAt(2), lower);
    if Contains(lower, "bench") {
      assert RuleMatches(RuleAt(3), lower);
      assert FirstMatch(lower) == Some(3);
    } else {
      assert !RuleMatches(RuleAt(3), lower);
      assert RuleMatches(RuleAt(4), lower);
      assert FirstMatch(lower) == Some(4);
    }
  }

  /** Any name containing "squat" is caught no later than the squat rule: never a deadlift. */
  lemma SquatBeforeDeadlifts(lower: string)
    requires Contains(lower, "squat")
    ensures FirstMatch(lower).Some? && FirstMatch(lower).value <= 7
    ensures RuleAt(FirstMatch(lower).value).target in
              {InclineCurls, InclineBenchPress, DeclineBenchPress, BenchPress, CableFlyes, Squat}
  {
    assert RuleMatches(RuleAt(7), lower);
    StopsAtOrBefore(lower, 7);
    EarlyTargets(FirstMatch(lower).value);
  }

  /** "romanian"+"deadlift" and "rdl" are tested before the bare "deadlift" rule. */
  lemma RomanianBeforeDeadlift(lower: string)
    requires Contains(lower, "rdl") || (Contains(lower, "romanian") && Contains(lower, "deadlift"))
    ensures FirstMatch(lower).Some? && RuleAt(FirstMatch(lower).value).target != Deadlift
  {
    if Contains(lower, "rdl") {
      assert RuleMatches(RuleAt(9), lower);
      StopsAtOrBefore(lower, 9);
    } else {
      assert RuleMatches(RuleAt(8), lower);
      StopsAtOrBefore(lower, 8);
    }
    EarlyTargets(FirstMatch(lower).value);
  }

  /** The exercises the first ten rules name: no plain deadlift among them, and the first eight stop at Squat. */
  lemma EarlyTargets(k: nat)
    requires k <= 9
    ensures k <= 7 ==> RuleAt(k).target in {InclineCurls, InclineBenchPress, DeclineBenchPress, BenchPress, CableFlyes, Squat}
    ensures RuleAt(k).target in {InclineCurls, InclineBenchPress, DeclineBenchPress, BenchPress, CableFlyes, Squat, RomanianDeadlift}
  {
  }

  /**
   * The `'leg curl'` rule can never fire: a name containing "leg curl" also
   * contains "curl" and is caught by the earlier bare "curl" rule.
   */
  lemma LegCurlRuleUnreachable(lower: string)
    ensures FirstMatch(lower) != Some(LegCurlRule)
  {
    if RuleMatches(RuleAt(LegCurlRule), lower) {
      assert Contains(lower, "leg curl");
      assert Contains("leg curl", "curl");
      ContainsTransitive(lower, "leg curl", "curl");
      assert RuleMatches(RuleAt(CurlRule), lower);
      StopsAtOrBefore(lower, CurlRule);
    }
  }

  /** A name with "bench" but neither "incline" nor "decline" gets the Bench Press entry. */
  lemma BareBench(lower: string)
    requires Contains(lower, "bench") && !Contains(lower, "incline") && !Contains(lower, "decline")
    ensures FirstMatch(lower) == Some(5) && RuleAt(5).target == BenchPress
  {
    assert !RuleMatches(RuleAt(0), lower) && !RuleMatches(RuleAt(1), lower) && !RuleMatches(RuleAt(2), lower);
    assert !RuleMatches(RuleAt(3), lower) && !RuleMatches(RuleAt(4), lower);
    assert RuleMatches(RuleAt(5), lower);
  }
}
