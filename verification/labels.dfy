/** Object labels. The newer tree tags objects with free-form colour strings
    and classifies them with case-insensitive `re.search` on a literal
    pattern; the older tree maps labels onto a small id enumeration. */
module Labels {
  import opened Common

  /** ASCII lower-casing, which is what `re.IGNORECASE` does to the literal
      patterns used here ("drone", "black", "red", "green", "blue"). */
  function LowerChar(c: char): char {
    if 'A' <= c <= 'Z' then (c as int + 32) as char else c
  }

  function Lower(s: string): (r: string)
    ensures |r| == |s|
    ensures forall i :: 0 <= i < |s| ==> r[i] == LowerChar(s[i])
  {
    seq(|s|, i requires 0 <= i < |s| => LowerChar(s[i]))
  }

  /** `p` occurs in `s` starting at index `i`. */
  predicate OccursAt(s: string, p: string, i: int) {
    0 <= i && i + |p| <= |s| && s[i..i + |p|] == p
  }

  /** Literal substring search, scanning left to right. */
  predicate Contains(s: string, p: string)
    decreases |s|
  {
    if |p| <= |s| && s[..|p|] == p then true
    else if |s| == 0 then false
    else Contains(s[1..], p)
  }

  /** The scan finds `p` exactly when `p` occurs somewhere in `s`. */
  lemma {:induction false} ContainsSpec(s: string, p: string)
    ensures Contains(s, p) <==> exists i :: OccursAt(s, p, i)
    decreases |s|
  {
    if |p| <= |s| && s[..|p|] == p {
      assert OccursAt(s, p, 0);
    } else if |s| == 0 {
      assert forall i :: !OccursAt(s, p, i);
    } else {
      ContainsSpec(s[1..], p);
      assert !OccursAt(s, p, 0);
      forall i | OccursAt(s, p, i) && i > 0 ensures OccursAt(s[1..], p, i - 1) {
        assert s[1..][i - 1..i - 1 + |p|] == s[i..i + |p|];
      }
      forall i | OccursAt(s[1..], p, i) ensures OccursAt(s, p, i + 1) {
        assert s[i + 1..i + 1 + |p|] == s[1..][i..i + |p|];
      }
    }
  }

  /** `re.search(p, s, re.IGNORECASE)` for a lower-case literal pattern `p`. */
  predicate ContainsIgnoreCase(s: string, p: string) {
    Contains(Lower(s), p)
  }

  /** `re.search("\?", s)`: the filler marker of a goal slot. */
  predicate IsFiller(s: string) {
    '?' in s
  }

  /** Ids of the older tree: the drone plus four block colours. The numeric
      codes shown for the older tree are DRONE=0, RED=1, GREEN=2, BLUE=4;
      YELLOW is referenced by the later code but its value is not shown. */
  datatype ObjectId = DroneId | Red | Green | Blue | Yellow

  function IdCode(id: ObjectId): Option<nat> {
    match id
    case DroneId => Some(0)
    case Red => Some(1)
    case Green => Some(2)
    case Blue => Some(4)
    case Yellow => None
  }

  /** The four block colours a tower may use. */
  predicate IsColour(id: ObjectId) {
    id != DroneId
  }

  /** `DroneWorldObjectId.str_to_id`: red, green, blue and drone are tried in
      that order, case-insensitively; anything else is a ValueError. */
  function StrToId(name: string): (r: Result<ObjectId>)
    ensures r == Ok(Red) <==> ContainsIgnoreCase(name, "red")
    ensures r == Ok(Green) <==>
      !ContainsIgnoreCase(name, "red") && ContainsIgnoreCase(name, "green")
    ensures r == Ok(Blue) <==>
      !ContainsIgnoreCase(name, "red") && !ContainsIgnoreCase(name, "green")
      && ContainsIgnoreCase(name, "blue")
    ensures r == Ok(DroneId) <==>
      !ContainsIgnoreCase(name, "red") && !ContainsIgnoreCase(name, "green")
      && !ContainsIgnoreCase(name, "blue") && ContainsIgnoreCase(name, "drone")
    ensures r.Err? <==>
      !ContainsIgnoreCase(name, "red") && !ContainsIgnoreCase(name, "green")
      && !ContainsIgnoreCase(name, "blue") && !ContainsIgnoreCase(name, "drone")
    ensures r.Err? ==> r.error == ValueError
    ensures r != Ok(Yellow)
  {
    if ContainsIgnoreCase(name, "red") then Ok(Red)
    else if ContainsIgnoreCase(name, "green") then Ok(Green)
    else if ContainsIgnoreCase(name, "blue") then Ok(Blue)
    else if ContainsIgnoreCase(name, "drone") then Ok(DroneId)
    else Err(ValueError)
  }

  /** The numeric codes are pairwise distinct where they are defined. */
  lemma IdCodesDistinct(a: ObjectId, b: ObjectId)
    requires IdCode(a).Some? && IdCode(b).Some? && a != b
    ensures IdCode(a) != IdCode(b)
  {
  }

  /** Case-insensitive matching sees through upper-case letters. */
  lemma UpperLabelMatches()
    ensures ContainsIgnoreCase("DRONE", "drone")
    ensures StrToId("Dark-RED") == Ok(Red)
  {
    assert Lower("DRONE") == "drone";
    assert Lower("Dark-RED")[5..8] == "red";
    ContainsSpec(Lower("Dark-RED"), "red");
    assert OccursAt(Lower("Dark-RED"), "red", 5);
  }
}
