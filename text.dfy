/** Small value types and string helpers shared by the backend model:
    Python's `None`, the three states of a JSON object key, and Python's
    substring test `sub in s`. */
module Text {

  /** A value that may be absent; also Python's `None`. */
  datatype Option<+T> = None | Some(value: T)

  /** A key of a parsed JSON object: absent, present with `null`, or present
      with a value. */
  datatype Field<+T> = Missing | Null | Present(value: T) {
    /** `obj.get(key, default)`: the default only for an absent key; a present
        `null` comes back as Python's `None`. */
    function Get(default: T): (r: Option<T>)
      ensures Missing? ==> r == Some(default)
      ensures Null? ==> r == None
      ensures Present? ==> r == Some(value)
    {
      match this
      case Missing => Some(default)
      case Null => None
      case Present(v) => Some(v)
    }
  }

  /** `sub` occurs in `s` starting at index `i`. */
  ghost predicate OccursAt(s: string, sub: string, i: int) {
    0 <= i && i + |sub| <= |s| && s[i..i + |sub|] == sub
  }

  /** `p` is a prefix of `s`. */
  predicate StartsWith(s: string, p: string) {
    |p| <= |s| && s[..|p|] == p
  }

  /** Python's `sub in s` for strings: `sub` is a contiguous substring of `s`. */
  function Contains(s: string, sub: string): (r: bool)
    ensures r <==> exists i :: OccursAt(s, sub, i)
    decreases |s|
  {
    if StartsWith(s, sub) then
      assert OccursAt(s, sub, 0);
      true
    else if |s| == 0 then
      assert forall i :: !OccursAt(s, sub, i);
      false
    else
      var r := Contains(s[1..], sub);
      assert forall i :: OccursAt(s[1..], sub, i) <==> OccursAt(s, sub, i + 1) by {
        forall i ensures OccursAt(s[1..], sub, i) <==> OccursAt(s, sub, i + 1) {
          if 0 <= i && i + |sub| <= |s| - 1 {
            assert s[1..][i..i + |sub|] == s[i + 1..i + 1 + |sub|];
          }
        }
      }
      assert !OccursAt(s, sub, 0);
      assert forall i :: OccursAt(s, sub, i) ==> i >= 1 && OccursAt(s[1..], sub, i - 1);
      r
  }
}
