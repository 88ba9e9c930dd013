/**
 * The `AnimationStyle` enumeration: fourteen members, each with an upper-case name
 * and a lower-case value, and `list_styles`.
 */
module Styles {
  import opened Wrappers
  import opened Text

  /** The members of AnimationStyle, in declaration order. */
  datatype Style =
    | Spinner | Matrix | Bouncing | Particles | LoadingDots | ProgressBar | Blocks
    | Arrows | Pulse | Snake | Fireworks | Dna | Clock | Binary

  /** The member's attribute name on the enumeration class. */
  function Name(s: Style): string
  {
    match s
    case Spinner => "SPINNER"
    case Matrix => "MATRIX"
    case Bouncing => "BOUNCING"
    case Particles => "PARTICLES"
    case LoadingDots => "LOADING_DOTS"
    case ProgressBar => "PROGRESS_BAR"
    case Blocks => "BLOCKS"
    case Arrows => "ARROWS"
    case Pulse => "PULSE"
    case Snake => "SNAKE"
    case Fireworks => "FIREWORKS"
    case Dna => "DNA"
    case Clock => "CLOCK"
    case Binary => "BINARY"
  }

  /** The member's value. */
  function Value(s: Style): string
  {
    match s
    case Spinner => "spinner"
    case Matrix => "matrix"
    case Bouncing => "bouncing"
    case Particles => "particles"
    case LoadingDots => "loading_dots"
    case ProgressBar => "progress_bar"
    case Blocks => "blocks"
    case Arrows => "arrows"
    case Pulse => "pulse"
    case Snake => "snake"
    case Fireworks => "fireworks"
    case Dna => "dna"
    case Clock => "clock"
    case Binary => "binary"
  }

  /** The order in which iterating over the enumeration visits its members. */
  const Members: seq<Style> :=
    [Spinner, Matrix, Bouncing, Particles, LoadingDots, ProgressBar, Blocks,
     Arrows, Pulse, Snake, Fireworks, Dna, Clock, Binary]

  /** Every member is visited, and none twice. */
  lemma MembersEnumerated(s: Style)
    ensures s in Members
    ensures forall i, j :: 0 <= i < j < |Members| ==> Members[i] != Members[j]
  {
  }

  /** Two strings that are each other's case mapping, character by character. */
  lemma CaseVariants(lower: string, upper: string)
    requires |lower| == |upper|
    requires forall i :: 0 <= i < |lower| ==> UpperChar(lower[i]) == upper[i] && LowerChar(upper[i]) == lower[i]
    ensures ToUpper(lower) == upper && ToLower(upper) == lower
  {
  }

  /** A member's value is its name in lower case, and its name is its value in upper case. */
  lemma ValueIsLowerName(s: Style)
    ensures ToLower(Name(s)) == Value(s)
    ensures ToUpper(Value(s)) == Name(s)
  {
    if s in {Spinner, Matrix, Bouncing, Particles, LoadingDots} {
      CaseVariantsFirst(s);
    } else if s in {ProgressBar, Blocks, Arrows, Pulse, Snake} {
      CaseVariantsMiddle(s);
    } else {
      CaseVariantsLast(s);
    }
  }

  // The 14 members are split over three lemmas so that each proof stays within the solver's resource limit.
  lemma CaseVariantsFirst(s: Style)
    requires s in {Spinner, Matrix, Bouncing, Particles, LoadingDots}
    ensures ToLower(Name(s)) == Value(s) && ToUpper(Value(s)) == Name(s)
  {
    CaseVariants(Value(s), Name(s));
  }

  lemma CaseVariantsMiddle(s: Style)
    requires s in {ProgressBar, Blocks, Arrows, Pulse, Snake}
    ensures ToLower(Name(s)) == Value(s) && ToUpper(Value(s)) == Name(s)
  {
    CaseVariants(Value(s), Name(s));
  }

  lemma CaseVariantsLast(s: Style)
    requires s in {Fireworks, Dna, Clock, Binary}
    ensures ToLower(Name(s)) == Value(s) && ToUpper(Value(s)) == Name(s)
  {
    CaseVariants(Value(s), Name(s));
  }

  /** `list_styles()`: the values of all members, in declaration order. */
  function ListStyles(): (r: seq<string>)
    ensures |r| == 14
    ensures forall i :: 0 <= i < |r| ==> r[i] == Value(Members[i])
    ensures r[0] == "spinner" && r[13] == "binary"
  {
    seq(|Members|, i requires 0 <= i < |Members| => Value(Members[i]))
  }

  /** The member whose name is `name` among `candidates`, as `hasattr`/`getattr` find it. */
  function FindByName(name: string, candidates: seq<Style>): (r: Option<Style>)
    ensures r.Some? ==> r.value in candidates && Name(r.value) == name
    ensures r.None? ==> forall s :: s in candidates ==> Name(s) != name
  {
    if candidates == [] then None
    else if Name(candidates[0]) == name then Some(candidates[0])
    else FindByName(name, candidates[1..])
  }

  /** Looks a member up by attribute name: the enumeration's `hasattr` and `getattr`. */
  function MemberNamed(name: string): (r: Option<Style>)
    ensures r.Some? ==> Name(r.value) == name
  {
    FindByName(name, Members)
  }

  /** No two members share a name. */
  lemma NamesDistinct(a: Style, b: Style)
    ensures Name(a) == Name(b) ==> a == b
  {
  }

  /** The lookup finds a member exactly under its own name. */
  lemma MemberNamedExactly(name: string, s: Style)
    ensures MemberNamed(name) == Some(s) <==> name == Name(s)
  {
    MembersEnumerated(s);
    if MemberNamed(name) == Some(s) {
      assert Name(s) == name;
    }
    if name == Name(s) {
      var r := MemberNamed(name);
      assert r.Some?;
      NamesDistinct(r.value, s);
    }
  }

  /**
   * Upper-casing any listed value names a member, and the one it names is the member
   * listed at that position; hence all fourteen values are pairwise distinct.
   */
  lemma ListedValuesResolve()
    ensures forall i :: 0 <= i < |ListStyles()| ==> MemberNamed(ToUpper(ListStyles()[i])) == Some(Members[i])
    ensures forall i, j :: 0 <= i < j < |ListStyles()| ==> ListStyles()[i] != ListStyles()[j]
  {
    var r := ListStyles();
    forall i | 0 <= i < |r|
      ensures MemberNamed(ToUpper(r[i])) == Some(Members[i])
    {
      ValueIsLowerName(Members[i]);
      MemberNamedExactly(ToUpper(r[i]), Members[i]);
    }
    forall i, j | 0 <= i < j < |r|
      ensures r[i] != r[j]
    {
      MembersEnumerated(Members[i]);
    }
  }
}
