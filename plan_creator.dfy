/**
 * The training plan editor: three day tabs, each holding a list of exercises that can be added
 * (at most seven per day), removed by their id and edited field by field, and the lookup of an
 * exercise's name in the catalogue.
 */
module PlanCreator {
  import opened Text
  import opened Lists

  /** The most exercises one day can hold. */
  const MaxPerDay := 7

  datatype DayKey = Day1 | Day2 | Day3

  datatype ExerciseItem = ExerciseItem(id: string, exerciseId: string, sets: int, reps: string,
                                       rest: string, notes: string)

  /** `days`: one exercise list per day. */
  datatype Days = Days(day1: seq<ExerciseItem>, day2: seq<ExerciseItem>, day3: seq<ExerciseItem>)
  {
    function Get(d: DayKey): seq<ExerciseItem> {
      match d
      case Day1 => day1
      case Day2 => day2
      case Day3 => day3
    }

    /** `{ ...prev, [d]: { exercises: xs } }`: day `d` replaced, the other two as they were. */
    function With(d: DayKey, xs: seq<ExerciseItem>): (r: Days)
      ensures r.Get(d) == xs
      ensures forall e | e != d :: r.Get(e) == Get(e)
    {
      match d
      case Day1 => this.(day1 := xs)
      case Day2 => this.(day2 := xs)
      case Day3 => this.(day3 := xs)
    }
  }

  /** No day holds more than the cap. */
  predicate WithinCap(days: Days) {
    forall d :: |days.Get(d)| <= MaxPerDay
  }

  /** The exercise `addExercise` appends, with the given (randomly drawn) id. */
  function NewExercise(id: string): ExerciseItem {
    ExerciseItem(id, "", 3, "8-12", "60s", "")
  }

  // ---------------------------------------------------------------- one day's list

  /** The list after `addExercise`: one new exercise at the end, unless the day is full. */
  function Appended(xs: seq<ExerciseItem>, id: string): (r: seq<ExerciseItem>)
    ensures |xs| >= MaxPerDay ==> r == xs
    ensures |xs| < MaxPerDay ==> |r| == |xs| + 1 && r[..|xs|] == xs && r[|xs|] == NewExercise(id)
    ensures |xs| <= MaxPerDay ==> |r| <= MaxPerDay
  {
    if |xs| >= MaxPerDay then xs else xs + [NewExercise(id)]
  }

  predicate Keeps(ex: ExerciseItem, id: string) {
    ex.id != id
  }

  /** The list after `removeExercise`: every entry with that id dropped. */
  function Removed(xs: seq<ExerciseItem>, id: string): seq<ExerciseItem> {
    Filter(ex => Keeps(ex, id), xs)
  }

  /** The fields of an exercise, as `keyof ExerciseItem`. */
  datatype Field = Id | ExerciseId | Sets | Reps | Rest | Notes

  /** A field's value: a count for `sets`, a text for the others. */
  datatype FieldValue = Text(text: string) | Count(count: int)

  function FieldOf(ex: ExerciseItem, f: Field): FieldValue {
    match f
    case Id => Text(ex.id)
    case ExerciseId => Text(ex.exerciseId)
    case Sets => Count(ex.sets)
    case Reps => Text(ex.reps)
    case Rest => Text(ex.rest)
    case Notes => Text(ex.notes)
  }

  /** The value a field may take. */
  predicate Fits(f: Field, v: FieldValue) {
    if f == Sets then v.Count? else v.Text?
  }

  /** `{ ...ex, [f]: v }`: field `f` set to `v`, every other field as it was. */
  function SetField(ex: ExerciseItem, f: Field, v: FieldValue): (r: ExerciseItem)
    requires Fits(f, v)
    ensures FieldOf(r, f) == v
    ensures forall g | g != f :: FieldOf(r, g) == FieldOf(ex, g)
  {
    match f
    case Id => ex.(id := v.text)
    case ExerciseId => ex.(exerciseId := v.text)
    case Sets => ex.(sets := v.count)
    case Reps => ex.(reps := v.text)
    case Rest => ex.(rest := v.text)
    case Notes => ex.(notes := v.text)
  }

  /** The list after `updateExercise`: the entries with that id edited, the others untouched. */
  function Updated(xs: seq<ExerciseItem>, id: string, f: Field, v: FieldValue): (r: seq<ExerciseItem>)
    requires Fits(f, v)
    ensures |r| == |xs|
    ensures forall k | 0 <= k < |xs| && xs[k].id != id :: r[k] == xs[k]
    ensures forall k | 0 <= k < |xs| && xs[k].id == id ::
              FieldOf(r[k], f) == v && forall g | g != f :: FieldOf(r[k], g) == FieldOf(xs[k], g)
  {
    MapSeq((ex: ExerciseItem) => if ex.id == id then SetField(ex, f, v) else ex, xs)
  }

  // ---------------------------------------------------------------- their properties

  /** Removing keeps exactly the entries with another id, in their order and as often as they occur. */
  lemma RemovedSpec(xs: seq<ExerciseItem>, id: string)
    ensures IsSubsequence(Removed(xs, id), xs)
    ensures |Removed(xs, id)| <= |xs|
    ensures forall ex :: ex in Removed(xs, id) <==> ex in xs && ex.id != id
    ensures forall ex :: multiset(Removed(xs, id))[ex] == if ex.id != id then multiset(xs)[ex] else 0
  {
    var keep := ex => Keeps(ex, id);
    FilterSpec(keep, xs);
    FilterLength(keep, xs);
    forall ex ensures ex in Removed(xs, id) <==> ex in xs && ex.id != id {
      FilterMember(keep, xs, ex);
    }
  }

  /** Removing an id no entry has leaves the list unchanged. */
  lemma RemoveAbsent(xs: seq<ExerciseItem>, id: string)
    requires forall k | 0 <= k < |xs| :: xs[k].id != id
    ensures Removed(xs, id) == xs
  {
    FilterAll(ex => Keeps(ex, id), xs);
  }

  /** Removing the id just added (when it was new to the day) undoes the addition. */
  lemma RemoveUndoesAdd(xs: seq<ExerciseItem>, id: string)
    requires forall k | 0 <= k < |xs| :: xs[k].id != id
    ensures Removed(Appended(xs, id), id) == xs
  {
    var keep := ex => Keeps(ex, id);
    RemoveAbsent(xs, id);
    if |xs| < MaxPerDay {
      assert Appended(xs, id) == xs + [NewExercise(id)];
      FilterConcat(keep, xs, [NewExercise(id)]);
      assert Filter(keep, [NewExercise(id)]) == [];
    }
  }

  /** Editing an id no entry has leaves the list unchanged. */
  lemma UpdateAbsent(xs: seq<ExerciseItem>, id: string, f: Field, v: FieldValue)
    requires Fits(f, v)
    requires forall k | 0 <= k < |xs| :: xs[k].id != id
    ensures Updated(xs, id, f, v) == xs
  {
  }

  // ---------------------------------------------------------------- the whole plan

  /** The initial `days`: all three days empty. */
  const NoExercises := Days([], [], [])

  /** The handlers on the whole plan: only the targeted day changes, and the cap is kept. */
  lemma PlanOperations(days: Days, d: DayKey, id: string, f: Field, v: FieldValue)
    requires WithinCap(days) && Fits(f, v)
    ensures WithinCap(days.With(d, Appended(days.Get(d), id)))
    ensures WithinCap(days.With(d, Removed(days.Get(d), id)))
    ensures WithinCap(days.With(d, Updated(days.Get(d), id, f, v)))
    ensures forall e | e != d :: days.With(d, Appended(days.Get(d), id)).Get(e) == days.Get(e)
  {
    FilterLength(ex => Keeps(ex, id), days.Get(d));
  }

  /**
   * `PlanCreator`'s `days` state and the handlers that replace it; `addExercise` receives the id
   * that `Math.random` would draw.
   */
  class PlanEditor {
    var days: Days

    predicate Valid()
      reads this
    {
      WithinCap(days)
    }

    constructor()
      ensures days == NoExercises && Valid()
    {
      days := NoExercises;
    }

    /** `addExercise(day)`: does nothing when the day already holds seven exercises. */
    method AddExercise(day: DayKey, newId: string)
      requires Valid()
      modifies this
      ensures Valid()
      ensures days == old(days).With(day, Appended(old(days).Get(day), newId))
      ensures |old(days).Get(day)| == MaxPerDay ==> days == old(days)
    {
      var xs := days.Get(day);
      if |xs| >= MaxPerDay {
        return;
      }
      days := days.With(day, xs + [NewExercise(newId)]);
    }

    /** `removeExercise(day, id)`. */
    method RemoveExercise(day: DayKey, id: string)
      requires Valid()
      modifies this
      ensures Valid()
      ensures days == old(days).With(day, Removed(old(days).Get(day), id))
    {
      FilterLength(ex => Keeps(ex, id), days.Get(day));
      days := days.With(day, Removed(days.Get(day), id));
    }

    /** `updateExercise(day, id, field, value)`. */
    method UpdateExercise(day: DayKey, id: string, f: Field, v: FieldValue)
      requires Valid() && Fits(f, v)
      modifies this
      ensures Valid()
      ensures days == old(days).With(day, Updated(old(days).Get(day), id, f, v))
    {
      days := days.With(day, Updated(days.Get(day), id, f, v));
    }
  }

  // ---------------------------------------------------------------- exercise names

  datatype CatalogueEntry = CatalogueEntry(id: string, name: string)

  /** The names of the exercises the plan creator offers, in catalogue order. */
  const ExerciseNames := [
    "Sentadilla", "Hip Thrust", "Estocadas", "Press de Banca", "Peso Muerto", "Dominadas",
    "Fondos", "Curl de Bíceps", "Extensiones de Tríceps", "Press Militar", "Remo con Barra",
    "Elevaciones Laterales", "Zancadas", "Prensa de Piernas", "Extensiones de Cuádriceps",
    "Curl de Isquiotibiales", "Elevaciones de Pantorrillas", "Abdominales", "Plancha",
    "Russian Twist"]

  /** The catalogue: the k-th exercise (from 1) has the id `String(k)`. */
  function Catalogue(): (c: seq<CatalogueEntry>)
    ensures |c| == |ExerciseNames|
    ensures forall k | 0 <= k < |c| :: c[k] == CatalogueEntry(Decimal(k + 1), ExerciseNames[k])
  {
    seq(|ExerciseNames|, k requires 0 <= k < |ExerciseNames| => CatalogueEntry(Decimal(k + 1), ExerciseNames[k]))
  }

  const Unselected := "Seleccionar ejercicio"

  /** `getExerciseName` over a catalogue: the name of the first entry with that id, if any. */
  function ExerciseName(catalogue: seq<CatalogueEntry>, id: string): (r: string)
    ensures (forall k | 0 <= k < |catalogue| :: catalogue[k].id != id) ==> r == Unselected
    ensures (exists k | 0 <= k < |catalogue| :: catalogue[k].id == id) ==>
              exists k | 0 <= k < |catalogue| ::
                && catalogue[k].id == id && r == catalogue[k].name
                && forall j | 0 <= j < k :: catalogue[j].id != id
    decreases |catalogue|
  {
    if |catalogue| == 0 then Unselected
    else if catalogue[0].id == id then catalogue[0].name
    else
      var r := ExerciseName(catalogue[1..], id);
      assert forall k | 1 <= k < |catalogue| :: catalogue[k] == catalogue[1..][k - 1];
      r
  }

  function GetExerciseName(id: string): string {
    ExerciseName(Catalogue(), id)
  }

  /** A newly added exercise has no exercise chosen, and its card says so. */
  lemma NewExerciseUnselected(id: string)
    ensures GetExerciseName(NewExercise(id).exerciseId) == Unselected
  {
    forall k | 0 <= k < |Catalogue()| ensures Catalogue()[k].id != "" {
      assert |Decimal(k + 1)| > 0;
    }
  }

  /** The exercise chosen under id `String(n)`, for n from 1 to 20, is shown by its name. */
  lemma CatalogueName(n: nat)
    requires 1 <= n <= |ExerciseNames|
    ensures GetExerciseName(Decimal(n)) == ExerciseNames[n - 1]
  {
    forall k | 0 <= k < |Catalogue()| && Catalogue()[k].id == Decimal(n) ensures k == n - 1 {
      DecimalValue(k + 1);
      DecimalValue(n);
    }
    assert Catalogue()[n - 1].id == Decimal(n);
  }
}
