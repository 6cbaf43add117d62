/** The `Array.safelyAccessElement(at:)` extension of ContentView.swift. */
module SafeAccess {
  import opened Wrappers

  /** A bounds-checked lookup: `None` outside `0 <= index < |a|`, the element otherwise.
      It has no precondition: every index, negative ones included, is answered. */
  function SafelyAccessElement<T>(a: seq<T>, index: int): (r: Option<T>)
    ensures r.None? <==> index < 0 || index >= |a|
    ensures r.Some? ==> 0 <= index < |a| && r.value == a[index]
  {
    if index >= 0 && index < |a| then Some(a[index]) else None
  }

  /** An independent reference definition: walk the list, counting the index down. */
  function ElementAt<T>(a: seq<T>, index: int): Option<T>
    decreases |a|
  {
    if a == [] || index < 0 then None
    else if index == 0 then Some(a[0])
    else ElementAt(a[1..], index - 1)
  }

  /** The guarded lookup and the list walk agree everywhere. */
  lemma {:induction false} SafelyAccessIsElementAt<T>(a: seq<T>, index: int)
    ensures SafelyAccessElement(a, index) == ElementAt(a, index)
    decreases |a|
  {
    if a != [] && index > 0 {
      SafelyAccessIsElementAt(a[1..], index - 1);
    }
  }
}
