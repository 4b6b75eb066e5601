/** The generic event a CSV header block lives in: an insertion-ordered bag of
    named properties, each holding a long or a string. */
module Events {
  import opened Wrappers

  /** The reserved property that records the source line of an event. */
  const LINE_NUMBER_PROPERTY_NAME: string := "line-number"

  /** The reserved name of the timestamp property of a timed event. */
  const TIMESTAMP_PROPERTY_NAME: string := "timestamp"

  datatype Value = LongValue(long: int) | StringValue(str: string)

  datatype Property = Property(name: string, value: Value)

  /** The bag holds at most one property per name. */
  predicate NamesDistinct(props: seq<Property>)
  {
    forall i, j :: 0 <= i < j < |props| ==> props[i].name != props[j].name
  }

  /** The position of the first property called name, if any. */
  function FindName(props: seq<Property>, name: string): (r: Option<nat>)
    ensures r.Some? ==> r.value < |props| && props[r.value].name == name
    ensures r.Some? ==> forall j :: 0 <= j < r.value ==> props[j].name != name
    ensures r.None? ==> forall j :: 0 <= j < |props| ==> props[j].name != name
  {
    if props == [] then None
    else if props[0].name == name then Some(0)
    else match FindName(props[1..], name)
      case Some(i) => Some(i + 1)
      case None => None
  }

  function GetProperty(props: seq<Property>, name: string): Option<Value>
  {
    match FindName(props, name)
    case Some(i) => Some(props[i].value)
    case None => None
  }

  /** Setting a property replaces the value of an existing property of that
      name where it stands, and appends a new property otherwise. */
  function SetProperty(props: seq<Property>, name: string, v: Value): (r: seq<Property>)
    ensures |r| >= |props| && forall i :: 0 <= i < |props| ==> r[i].name == props[i].name
    ensures GetProperty(props, name).Some? ==> |r| == |props|
    ensures GetProperty(props, name).None? ==> r == props + [Property(name, v)]
  {
    match FindName(props, name)
    case Some(i) => props[i := Property(name, v)]
    case None => props + [Property(name, v)]
  }

  /** Setting a property keeps the bag free of duplicate names. */
  lemma SetPropertyKeepsNamesDistinct(props: seq<Property>, name: string, v: Value)
    requires NamesDistinct(props)
    ensures NamesDistinct(SetProperty(props, name, v))
  {
  }

  /** A property reads back as set, and every other property reads as before. */
  lemma GetAfterSet(props: seq<Property>, name: string, v: Value, other: string)
    ensures GetProperty(SetProperty(props, name, v), name) == Some(v)
    ensures other != name ==> GetProperty(SetProperty(props, name, v), other) == GetProperty(props, other)
  {
    var r := SetProperty(props, name, v);
    match FindName(props, name)
    case Some(i) =>
      assert FindName(r, name) == Some(i) by {
        FirstOccurrenceUnique(r, name, FindName(r, name), i);
      }
      if other != name {
        var o := FindName(props, other);
        if o.Some? {
          FirstOccurrenceUnique(r, other, FindName(r, other), o.value);
        }
      }
    case None =>
      assert FindName(r, name) == Some(|props|) by {
        FirstOccurrenceUnique(r, name, FindName(r, name), |props|);
      }
      if other != name {
        var o := FindName(props, other);
        if o.Some? {
          FirstOccurrenceUnique(r, other, FindName(r, other), o.value);
        }
      }
  }

  /** In a bag without duplicate names every property is the one its name
      reads: no property is hidden behind an earlier one of the same name. */
  lemma DistinctNamesAllVisible(props: seq<Property>, i: nat)
    requires NamesDistinct(props) && i < |props|
    ensures GetProperty(props, props[i].name) == Some(props[i].value)
  {
    FirstOccurrenceUnique(props, props[i].name, FindName(props, props[i].name), i);
  }

  /** Two first occurrences of a name are at the same position. */
  lemma FirstOccurrenceUnique(props: seq<Property>, name: string, found: Option<nat>, i: nat)
    requires found == FindName(props, name)
    requires i < |props| && props[i].name == name
    requires forall j :: 0 <= j < i ==> props[j].name != name
    ensures found == Some(i)
  {
  }
}
