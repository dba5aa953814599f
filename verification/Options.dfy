/** A value that may be missing: a null pointer or an error return in the source. */
module Options {

  datatype Option<T> = None | Some(value: T)

  /** Puts `head` before a result, if there is one. */
  function Join<T>(head: seq<T>, tail: Option<seq<T>>): Option<seq<T>> {
    if tail.None? then None else Some(head + tail.value)
  }

  lemma JoinNothing<T>(o: Option<seq<T>>)
    ensures Join([], o) == o
  {
    assert o.Some? ==> [] + o.value == o.value;
  }

  lemma JoinAssociates<T>(a: seq<T>, b: seq<T>, t: Option<seq<T>>)
    ensures Join(a, Join(b, t)) == Join(a + b, t)
  {
    assert t.Some? ==> a + (b + t.value) == (a + b) + t.value;
  }
}
