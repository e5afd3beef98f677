/** Small value types shared by the models. */
module Common {

  datatype Option<+T> = None | Some(value: T) {
    function UnwrapOr(default: T): T {
      if None? then default else value
    }
  }

  /** The first element of `s` outside `seen`, as `find` over a list with a `Set` does. */
  function FirstOutside<T(==)>(s: seq<T>, seen: set<T>): (r: Option<T>)
    ensures r.None? <==> forall x :: x in s ==> x in seen
    ensures r.Some? ==> r.value in s && r.value !in seen
  {
    if s == [] then None
    else if s[0] !in seen then Some(s[0])
    else FirstOutside(s[1..], seen)
  }

  ghost predicate Distinct<T>(s: seq<T>) {
    forall i, j :: 0 <= i < j < |s| ==> s[i] != s[j]
  }

  /** White space that `trim` removes and `\s` matches. */
  predicate IsSpace(c: char) {
    c in {' ', '\t', '\n', '\r', '\U{000B}', '\U{000C}', '\U{00A0}', '\U{1680}', '\U{2028}', '\U{2029}', '\U{202F}',
          '\U{205F}', '\U{3000}', '\U{FEFF}'}
    || '\U{2000}' <= c <= '\U{200A}'
  }

  function TrimStart(s: string): string {
    if s != "" && IsSpace(s[0]) then TrimStart(s[1..]) else s
  }

  function TrimEnd(s: string): string {
    if s != "" && IsSpace(s[|s| - 1]) then TrimEnd(s[..|s| - 1]) else s
  }

  function Trim(s: string): string {
    TrimEnd(TrimStart(s))
  }
}
