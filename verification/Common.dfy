/** Stock datatypes and facts every component shares. */
module Common {
  datatype Option<T> = None | Some(value: T) {
    function GetOr(fallback: T): T {
      if Some? then value else fallback
    }
  }

  datatype Error = Error(message: string)

  ghost predicate NoDuplicates<T>(s: seq<T>) {
    forall i, j :: 0 <= i < j < |s| ==> s[i] != s[j]
  }

  /** How many of `s` are such. */
  function Count<T>(s: seq<T>, such: T -> bool): nat {
    if s == [] then 0 else (if such(s[0]) then 1 else 0) + Count(s[1..], such)
  }

  lemma SomeMember<T>(s: seq<T>)
    requires s != []
    ensures exists x :: x in s
  {
    assert s[0] in s;
  }
}
