/**
 * The description a sensor or effector offers the coupling manager:
 * the parent entity's name, the attribute's id and its label, separated by
 * colons.
 */
module Peripheral {

  import opened Wrappers

  /** `parentName + ":" + id + ":" + label`. */
  function AttributeDescription(parentName: string, id: string, labelText: string): (r: string)
    ensures |r| == |parentName| + |id| + |labelText| + 2
    ensures r[..|parentName|] == parentName && r[|parentName| + 1..|parentName| + 1 + |id|] == id
    ensures r[|parentName| + 2 + |id|..] == labelText
    ensures r[|parentName|] == ':' && r[|parentName| + 1 + |id|] == ':'
  {
    parentName + ":" + id + ":" + labelText
  }

  /** How many times `c` occurs in `s`. */
  function Occurrences(s: string, c: char): nat
    decreases |s|
  {
    if s == [] then 0 else Occurrences(s[..|s| - 1], c) + (if s[|s| - 1] == c then 1 else 0)
  }

  lemma {:induction false} OccurrencesOfConcat(a: string, b: string, c: char)
    ensures Occurrences(a + b, c) == Occurrences(a, c) + Occurrences(b, c)
    decreases |b|
  {
    if b == [] {
      assert a + b == a;
    } else {
      var b' := b[..|b| - 1];
      assert (a + b)[..|a + b| - 1] == a + b';
      OccurrencesOfConcat(a, b', c);
    }
  }

  /** Every description holds at least the two separating colons. */
  lemma DescriptionHasTwoColons(parentName: string, id: string, labelText: string)
    ensures Occurrences(AttributeDescription(parentName, id, labelText), ':') >= 2
  {
    var r := AttributeDescription(parentName, id, labelText);
    assert r == (((parentName + ":") + id) + ":") + labelText;
    OccurrencesOfConcat((((parentName + ":") + id) + ":"), labelText, ':');
    OccurrencesOfConcat(((parentName + ":") + id), ":", ':');
    OccurrencesOfConcat((parentName + ":"), id, ':');
    OccurrencesOfConcat(parentName, ":", ':');
    assert Occurrences(":", ':') == 1 by {
      assert ":"[..0] == [];
    }
  }

  /** Cuts `s` at the first `c`: what comes before it and what comes after. */
  function SplitAtFirst(s: string, c: char): (r: Option<(string, string)>)
    ensures r.None? <==> c !in s
    ensures r.Some? ==> s == r.value.0 + [c] + r.value.1 && c !in r.value.0
  {
    if s == [] then None
    else if s[0] == c then Some(([], s[1..]))
    else match SplitAtFirst(s[1..], c)
      case None => None
      case Some((before, after)) => Some(([s[0]] + before, after))
  }

  lemma {:induction false} SplitAtFirstOfJoin(before: string, after: string, c: char)
    requires c !in before
    ensures SplitAtFirst(before + [c] + after, c) == Some((before, after))
  {
    var s := before + [c] + after;
    if before == [] {
      assert s[0] == c && s[1..] == after;
    } else {
      assert s[0] == before[0] && s[1..] == before[1..] + [c] + after;
      SplitAtFirstOfJoin(before[1..], after, c);
      assert [before[0]] + before[1..] == before;
    }
  }

  /** Reads a description back into parent name, id and label. */
  function ParseDescription(s: string): Option<(string, string, string)>
  {
    match SplitAtFirst(s, ':')
    case None => None
    case Some((parentName, rest)) =>
      match SplitAtFirst(rest, ':')
      case None => None
      case Some((id, labelText)) => Some((parentName, id, labelText))
  }

  /** Whatever parses is the description of its parts, with no colon in the name or the id. */
  lemma ParseDescriptionSound(s: string)
    ensures ParseDescription(s).Some? ==>
      var (parentName, id, labelText) := ParseDescription(s).value;
      s == AttributeDescription(parentName, id, labelText) && ':' !in parentName && ':' !in id
    ensures ParseDescription(s).None? ==> Occurrences(s, ':') < 2
  {
    match SplitAtFirst(s, ':')
    case None =>
      OccurrencesAbsent(s, ':');
    case Some((parentName, rest)) =>
      match SplitAtFirst(rest, ':') {
        case None =>
          OccurrencesAbsent(rest, ':');
          OccurrencesAbsent(parentName, ':');
          OccurrencesOfConcat(parentName + [':'], rest, ':');
          OccurrencesOfConcat(parentName, [':'], ':');
          assert Occurrences([':'], ':') == 1 by {
            assert [':'][..0] == [];
          }
        case Some((id, labelText)) =>
          assert s == parentName + ":" + id + ":" + labelText;
      }
  }

  lemma {:induction false} OccurrencesAbsent(s: string, c: char)
    requires c !in s
    ensures Occurrences(s, c) == 0
    decreases |s|
  {
    if s != [] {
      assert s == s[..|s| - 1] + [s[|s| - 1]];
      OccurrencesAbsent(s[..|s| - 1], c);
    }
  }

  /** A description whose name and id hold no colon determines all three parts. */
  lemma ParseDescriptionRoundTrip(parentName: string, id: string, labelText: string)
    requires ':' !in parentName && ':' !in id
    ensures ParseDescription(AttributeDescription(parentName, id, labelText)) == Some((parentName, id, labelText))
  {
    assert AttributeDescription(parentName, id, labelText) == parentName + [':'] + (id + [':'] + labelText);
    SplitAtFirstOfJoin(parentName, id + [':'] + labelText, ':');
    SplitAtFirstOfJoin(id, labelText, ':');
  }
}
