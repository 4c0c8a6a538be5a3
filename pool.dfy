/** The captured-piece pool: an ordered sequence, searched by drop
    character without regard to case, first match first. */
module Pool {
  import opened Wrappers
  import opened Pieces

  /** `getChar(p).lower() == key.lower()`. */
  predicate Matches(p: Piece, key: char)
  {
    ToLower(Char(p)) == ToLower(key)
  }

  /** The index `free` pops: the first pool piece matching `key`, if any. */
  function FirstMatch(pool: seq<Piece>, key: char): (r: Option<nat>)
    ensures r.Some? ==> r.value < |pool| && Matches(pool[r.value], key)
    ensures r.Some? ==> forall j :: 0 <= j < r.value ==> !Matches(pool[j], key)
    ensures r.None? <==> forall j :: 0 <= j < |pool| ==> !Matches(pool[j], key)
  {
    if pool == [] then None
    else if Matches(pool[0], key) then Some(0)
    else match FirstMatch(pool[1..], key)
      case None => None
      case Some(i) => Some(i + 1)
  }

  /** `list.pop(i)` on a sequence value: the others keep their order. */
  function RemoveAt<T>(s: seq<T>, i: nat): (r: seq<T>)
    requires i < |s|
    ensures |r| == |s| - 1
    ensures forall j :: 0 <= j < i ==> r[j] == s[j]
    ensures forall j :: i <= j < |r| ==> r[j] == s[j + 1]
  {
    s[..i] + s[i + 1..]
  }

  /** Popping a piece loses nothing else: the pool is the rest plus it. */
  lemma RemoveAtConserves<T>(s: seq<T>, i: nat)
    requires i < |s|
    ensures multiset(RemoveAt(s, i)) + multiset{s[i]} == multiset(s)
  {
    assert s == s[..i] + [s[i]] + s[i + 1..];
  }

  /** Capture then free is a round trip: a piece appended to a pool with no
      other match for its character is the one `free` pops, and popping it
      gives the pool back. */
  lemma {:induction false} AppendThenFree(pool: seq<Piece>, x: Piece, key: char)
    requires FirstMatch(pool, key).None? && Matches(x, key)
    ensures FirstMatch(pool + [x], key) == Some(|pool|)
    ensures RemoveAt(pool + [x], |pool|) == pool
  {
    if pool != [] {
      assert (pool + [x])[1..] == pool[1..] + [x];
      AppendThenFree(pool[1..], x, key);
    }
  }

  /** Appending never changes which earlier piece `free` finds. */
  lemma {:induction false} AppendKeepsFirstMatch(pool: seq<Piece>, x: Piece, key: char)
    requires FirstMatch(pool, key).Some?
    ensures FirstMatch(pool + [x], key) == FirstMatch(pool, key)
  {
    if !Matches(pool[0], key) {
      assert (pool + [x])[1..] == pool[1..] + [x];
      AppendKeepsFirstMatch(pool[1..], x, key);
    }
  }
}
