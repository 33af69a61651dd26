/**
 * The note entity. Ids are assigned by the server and are opaque to the client:
 * a note's id may be a number or a string, and route parameters are always text.
 * Every comparison goes through `String(id)`, which `Canon` models.
 */
module Notes {
  import Js

  datatype Id = NumId(n: int) | StrId(s: string)

  /** The id as the JavaScript value it is. */
  function IdValue(id: Id): Js.Value {
    match id
    case NumId(n) => Js.Num(n)
    case StrId(s) => Js.Str(s)
  }

  /**
   * `String(id)`: the canonical textual form every id comparison uses. A numeric
   * id reads as a non-empty numeral (digits after an optional '-'), so it never
   * contains a '/' and never reads as "undefined"; a textual id is its own form.
   */
  function Canon(id: Id): (r: string)
    ensures id.NumId? ==> r == Js.IntToString(id.n) && r != ""
    ensures id.NumId? ==> (r[0] == '-' || Js.IsDigit(r[0])) && forall k :: 0 < k < |r| ==> Js.IsDigit(r[k])
    ensures id.StrId? ==> r == id.s
    ensures r == "undefined" ==> id == StrId("undefined")
  {
    var text := Js.ToString(IdValue(id));
    if id.NumId? then
      Js.NatToStringDigits(if id.n < 0 then -id.n else id.n);
      assert text[0] == '-' || Js.IsDigit(text[0]);
      text
    else text
  }

  /** `String(a) === String(b)`. */
  predicate SameId(a: Id, b: Id) {
    Canon(a) == Canon(b)
  }

  /** Timestamps are set by the server and kept as the text it sends. */
  datatype Note = Note(id: Id, title: string, content: string, createdAt: string, updatedAt: string)

  /** The `{title, content}` body of a create or update request. */
  datatype NoteData = NoteData(title: string, content: string)

  /** A numeric id and a textual id match exactly when the text is the number's decimal form. */
  lemma NumMatchesStr(n: int, s: string)
    ensures SameId(NumId(n), StrId(s)) <==> s == Js.IntToString(n)
  {
  }

  /** Canonicalising never merges two different numeric ids. */
  lemma NumIdsMatchIffEqual(a: int, b: int)
    ensures SameId(NumId(a), NumId(b)) <==> a == b
  {
    if SameId(NumId(a), NumId(b)) {
      Js.IntToStringInjective(a, b);
    }
  }

  /** The numeric id 42 and the route parameter "42" name the same note. */
  lemma FortyTwoMatches()
    ensures SameId(NumId(42), StrId("42"))
    ensures !SameId(NumId(42), StrId("042"))
  {
    assert Js.NatToString(42) == Js.NatToString(4) + ['2'];
  }
}
