/**
 * The canonical encoding of an attribute list: fragments joined by `", "`,
 * with the empty string stored as `null`; and the decoding that undoes it.
 */
module Encoding {
  import opened Wrappers
  import opened Strings

  /** `fragments.join(", ") || null`. */
  function Encode(fragments: seq<string>): (r: Option<string>)
    ensures r.Some? ==> r.value != ""
    ensures |fragments| == 0 ==> r.None?
  {
    var s := Join(fragments, ", ");
    if s == "" then None else Some(s)
  }

  /** With non-empty fragments, the encoding is `null` exactly when there are none. */
  lemma EncodeNullIff(fragments: seq<string>)
    requires forall i :: 0 <= i < |fragments| ==> fragments[i] != ""
    ensures Encode(fragments).None? <==> |fragments| == 0
  {
    JoinEmptyIff(fragments, ", ");
  }

  /** Reads an encoding back into its fragments; `null` holds none. */
  function Decode(s: Option<string>): seq<string> {
    match s
    case None => []
    case Some(t) => Split(t, ", ")
  }

  /** Decoding undoes encoding when no fragment is empty or holds `", "`. */
  lemma DecodeEncode(fragments: seq<string>)
    requires forall i :: 0 <= i < |fragments| ==> fragments[i] != ""
    requires forall i :: 0 <= i < |fragments| ==> !Contains(fragments[i], ", ")
    ensures Decode(Encode(fragments)) == fragments
  {
    EncodeNullIff(fragments);
    if |fragments| > 0 {
      forall i | 0 <= i < |fragments|
        ensures SepFree(fragments[i], ", ")
      {
        CommaSpaceFree(fragments[i]);
      }
      SplitJoin(fragments, ", ");
    }
  }

  /** The `"<label> = <value>"` fragment of the add-on and datasheet editors. */
  function Pair(name: string, value: string): (r: string)
    ensures |r| == |name| + 3 + |value|
  {
    name + " = " + value
  }

  /** Splits a fragment at its first `" = "`. */
  function SplitPair(fragment: string): Option<(string, string)> {
    match Find(fragment, " = ")
    case None => None
    case Some(k) => Some((fragment[..k], fragment[k + 3..]))
  }

  /** A pair whose name cannot be confused with the `" = "` separator splits back. */
  lemma SplitPairOfPair(name: string, value: string)
    requires SepFree(name, " = ")
    ensures SplitPair(Pair(name, value)) == Some((name, value))
  {
    var s := Pair(name, value);
    forall j | 0 <= j < |name|
      ensures !OccursAt(s, " = ", j)
    {
      assert s[j..j + 3] == (name + " = ")[j..j + 3];
      assert !OccursAt(name + " = ", " = ", j);
    }
    assert s[|name|..|name| + 3] == " = ";
    assert OccursAt(s, " = ", |name|);
    assert Find(s, " = ") == Some(|name|);
    assert s[..|name|] == name;
    assert s[|name| + 3..] == value;
  }
}
