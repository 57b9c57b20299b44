/**
 * Evaluation recipes: the ordered list of stages a submission goes through, with named
 * placeholders where other components may insert stages. The helpers that insert stages
 * are not part of this model's sources; their behaviour is stated here as assumed: an
 * entry is found by the first stage or placeholder carrying the name, and when no entry
 * has the name the recipe is left as it is.
 */
module Evalmgr {
  import opened Wrappers

  /** The keyword arguments a stage may carry: none, or a `kind` (possibly `None`). */
  datatype StageArgs = NoArgs | KindArg(kind: Option<string>)

  /** A recipe entry: a named handler call, or an empty named insertion point. */
  datatype Stage = Step(name: string, handler: string, args: StageArgs) | Placeholder(name: string)

  /** `recipe_placeholder(name)`. */
  function RecipePlaceholder(name: string): Stage
  {
    Placeholder(name)
  }

  /** The index of the first entry called `name`, if any. */
  function FindEntry(recipe: seq<Stage>, name: string): (r: Option<nat>)
    ensures r.Some? ==> r.value < |recipe| && recipe[r.value].name == name
    ensures r.Some? ==> forall j :: 0 <= j < r.value ==> recipe[j].name != name
    ensures r.None? <==> forall j :: 0 <= j < |recipe| ==> recipe[j].name != name
  {
    if recipe == [] then None
    else if recipe[0].name == name then Some(0)
    else match FindEntry(recipe[1..], name)
      case None => None
      case Some(i) => Some(i + 1)
  }

  /** `extend_after_placeholder`: `entries` go right after the entry called `name`. */
  function ExtendAfterPlaceholder(recipe: seq<Stage>, name: string, entries: seq<Stage>): seq<Stage>
  {
    match FindEntry(recipe, name)
    case None => recipe
    case Some(i) => recipe[..i + 1] + entries + recipe[i + 1..]
  }

  /** `add_before_placeholder`: `entry` goes right before the entry called `name`. */
  function AddBeforePlaceholder(recipe: seq<Stage>, name: string, entry: Stage): seq<Stage>
  {
    match FindEntry(recipe, name)
    case None => recipe
    case Some(i) => recipe[..i] + [entry] + recipe[i..]
  }

  /** The first entry called `name` sits at `i`. */
  predicate FirstAt(recipe: seq<Stage>, name: string, i: nat)
  {
    i < |recipe| && recipe[i].name == name && forall j :: 0 <= j < i ==> recipe[j].name != name
  }

  lemma FindEntryFirstAt(recipe: seq<Stage>, name: string, i: nat)
    requires FirstAt(recipe, name, i)
    ensures FindEntry(recipe, name) == Some(i)
  {
    assert recipe[i].name == name;
  }

  /** Extending after an entry puts the new stages right after it and keeps everything else in order. */
  lemma ExtendAfterAt(recipe: seq<Stage>, name: string, entries: seq<Stage>, i: nat)
    requires FirstAt(recipe, name, i)
    ensures ExtendAfterPlaceholder(recipe, name, entries) == recipe[..i + 1] + entries + recipe[i + 1..]
  {
    FindEntryFirstAt(recipe, name, i);
  }

  /** Adding before an entry puts the new stage right in front of it. */
  lemma AddBeforeAt(recipe: seq<Stage>, name: string, entry: Stage, i: nat)
    requires FirstAt(recipe, name, i)
    ensures AddBeforePlaceholder(recipe, name, entry) == recipe[..i] + [entry] + recipe[i..]
  {
    FindEntryFirstAt(recipe, name, i);
  }

  /** A stage with another name added in front of the entry moves the entry one place on. */
  lemma AddBeforeShifts(recipe: seq<Stage>, name: string, a: Stage, i: nat)
    requires FirstAt(recipe, name, i) && a.name != name
    ensures FirstAt(recipe[..i] + [a] + recipe[i..], name, i + 1)
  {
    var once := recipe[..i] + [a] + recipe[i..];
    forall j | 0 <= j < i + 1
      ensures once[j].name != name
    {
      if j < i {
        assert once[j] == recipe[j];
      }
    }
    assert once[i + 1] == recipe[i];
  }

  /**
   * Inserting a stage with another name before an entry moves that entry one place on, so a
   * second insertion lands after the first: insertions before a placeholder keep their order.
   */
  lemma AddBeforeTwice(recipe: seq<Stage>, name: string, a: Stage, b: Stage, i: nat)
    requires FirstAt(recipe, name, i) && a.name != name
    ensures AddBeforePlaceholder(AddBeforePlaceholder(recipe, name, a), name, b)
            == recipe[..i] + [a, b] + recipe[i..]
  {
    var once := recipe[..i] + [a] + recipe[i..];
    AddBeforeAt(recipe, name, a, i);
    AddBeforeShifts(recipe, name, a, i);
    AddBeforeAt(once, name, b, i + 1);
    assert once[..i + 1] == recipe[..i] + [a];
    assert once[i + 1..] == recipe[i..];
    assert recipe[..i] + [a] + [b] == recipe[..i] + [a, b];
  }

  /** Without an entry of that name both helpers leave the recipe as it is. */
  lemma MissingPlaceholder(recipe: seq<Stage>, name: string, entries: seq<Stage>, entry: Stage)
    requires forall j :: 0 <= j < |recipe| ==> recipe[j].name != name
    ensures ExtendAfterPlaceholder(recipe, name, entries) == recipe
    ensures AddBeforePlaceholder(recipe, name, entry) == recipe
  {
  }
}
