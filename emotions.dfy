/** Emotion codes and the emotion-name table that both display variants share.

    Both display headers declare the same anonymous enum, NEUTRAL = 0 up to
    CONFUSED = 20, and both `SetFace` implementations search the same
    21-entry name table, whose order is the enum's order. */
module Emotions {

  datatype Option<+T> = None | Some(value: T)

  const NEUTRAL := 0
  const HAPPY := 1
  const LAUGHING := 2
  const FUNNY := 3
  const SAD := 4
  const ANGRY := 5
  const CRYING := 6
  const LOVING := 7
  const EMBARRAS := 8
  const SURPRISE := 9
  const SHOCKED := 10
  const THINKING := 11
  const WINKING := 12
  const COOL := 13
  const RELAXED := 14
  const DELICIOUS := 15
  const KISSY := 16
  const CONFIDENT := 17
  const SLEEPY := 18
  const SILLY := 19
  const CONFUSED := 20

  /** The names `SetFace` recognises, in table order. */
  const Names: seq<string> := [
    "neutral", "happy", "laughing", "funny", "sad", "angry", "crying",
    "loving", "embarrassed", "surprised", "shocked", "thinking", "winking",
    "cool", "relaxed", "delicious", "kissy", "confident", "sleepy", "silly",
    "confused"
  ]

  /** A linear search from the front, as `std::find` does: the position of
      the first entry equal to `name`, or None when there is none. */
  function IndexOf(names: seq<string>, name: string): (r: Option<nat>)
    ensures r.Some? ==> r.value < |names| && names[r.value] == name
    ensures r.Some? ==> forall j :: 0 <= j < r.value ==> names[j] != name
    ensures r.None? <==> name !in names
  {
    if |names| == 0 then None
    else if names[0] == name then Some(0)
    else
      match IndexOf(names[1..], name)
      case None => assert names == [names[0]] + names[1..]; None
      case Some(k) => Some(k + 1)
  }

  /** The emotion code of a name: its position in the name table
      (`std::distance` of the iterator `std::find` returns), or None for a
      name that is not in the table. */
  function Resolve(name: string): (r: Option<nat>)
    ensures r.Some? ==> r.value < |Names| && Names[r.value] == name
    ensures r.None? <==> name !in Names
  {
    IndexOf(Names, name)
  }

  /** No name occurs twice in the table. */
  lemma NamesDistinct()
    ensures forall i, j :: 0 <= i < j < |Names| ==> Names[i] != Names[j]
  {
    forall i, j | 0 <= i < j < |Names|
      ensures Names[i] != Names[j]
    {
      assert |Names[i]| != |Names[j]| || Names[i][0] != Names[j][0]
        || Names[i][1] != Names[j][1] || Names[i][2] != Names[j][2];
    }
  }

  /** Every table entry resolves to its own position: resolution is a
      bijection between the 21 names and the codes 0..20. */
  lemma ResolvePosition(i: nat)
    requires i < |Names|
    ensures Resolve(Names[i]) == Some(i)
  {
    NamesDistinct();
    assert Names[i] in Names;
  }

  /** The enum constants are the positions of their names in the table, so
      with `ResolvePosition` each name resolves to its own constant. */
  lemma CodesMatchNames()
    ensures Names[NEUTRAL] == "neutral" && Names[HAPPY] == "happy"
    ensures Names[LAUGHING] == "laughing" && Names[FUNNY] == "funny"
    ensures Names[SAD] == "sad" && Names[ANGRY] == "angry"
    ensures Names[CRYING] == "crying" && Names[LOVING] == "loving"
    ensures Names[EMBARRAS] == "embarrassed" && Names[SURPRISE] == "surprised"
    ensures Names[SHOCKED] == "shocked" && Names[THINKING] == "thinking"
    ensures Names[WINKING] == "winking" && Names[COOL] == "cool"
    ensures Names[RELAXED] == "relaxed" && Names[DELICIOUS] == "delicious"
    ensures Names[KISSY] == "kissy" && Names[CONFIDENT] == "confident"
    ensures Names[SLEEPY] == "sleepy" && Names[SILLY] == "silly"
    ensures Names[CONFUSED] == "confused" && |Names| == CONFUSED + 1
  {
    CodesMatchFirstNames();
    CodesMatchMiddleNames();
    CodesMatchLastNames();
  }

  lemma CodesMatchFirstNames()
    ensures Names[NEUTRAL] == "neutral" && Names[HAPPY] == "happy"
    ensures Names[LAUGHING] == "laughing" && Names[FUNNY] == "funny"
    ensures Names[SAD] == "sad" && Names[ANGRY] == "angry"
    ensures Names[CRYING] == "crying"
  {
  }

  lemma CodesMatchMiddleNames()
    ensures Names[LOVING] == "loving"
    ensures Names[EMBARRAS] == "embarrassed" && Names[SURPRISE] == "surprised"
    ensures Names[SHOCKED] == "shocked" && Names[THINKING] == "thinking"
    ensures Names[WINKING] == "winking" && Names[COOL] == "cool"
  {
  }

  lemma CodesMatchLastNames()
    ensures Names[RELAXED] == "relaxed" && Names[DELICIOUS] == "delicious"
    ensures Names[KISSY] == "kissy" && Names[CONFIDENT] == "confident"
    ensures Names[SLEEPY] == "sleepy" && Names[SILLY] == "silly"
    ensures Names[CONFUSED] == "confused" && |Names| == CONFUSED + 1
  {
  }
}
