/** Types shared by the modules: bytes, absent values, and sequence concatenation. */
module Common {

  type byte = b: int | 0 <= b < 256

  type bytes = seq<byte>

  datatype Option<+T> = None | Some(value: T)

  datatype Result<+T, +E> = Ok(value: T) | Err(error: E)

  lemma Regroup<T>(xs: seq<T>, ys: seq<T>, zs: seq<T>)
    ensures xs + ys + zs == xs + (ys + zs)
  {
  }

  /** All the elements of xss, in order. */
  function Concat<T>(xss: seq<seq<T>>): (r: seq<T>)
  {
    if xss == [] then [] else xss[0] + Concat(xss[1..])
  }

  lemma {:induction false} ConcatAppend<T>(xss: seq<seq<T>>, yss: seq<seq<T>>)
    ensures Concat(xss + yss) == Concat(xss) + Concat(yss)
  {
    if xss == [] {
      assert xss + yss == yss;
    } else {
      assert (xss + yss)[1..] == xss[1..] + yss;
      ConcatAppend(xss[1..], yss);
    }
  }

  lemma ConcatSingle<T>(xs: seq<T>)
    ensures Concat([xs]) == xs
  {
    assert Concat<T>([xs][1..]) == [];
  }

  /** The ASCII white space. */
  predicate IsSpace(code: int) {
    code == 32 || 9 <= code <= 13
  }

  // ---- Searching, as strings.Index does it ----

  predicate Matches<T(==)>(hay: seq<T>, needle: seq<T>, k: int) {
    0 <= k && k + |needle| <= |hay| && hay[k..k + |needle|] == needle
  }

  /** The first occurrence of needle. */
  function IndexOf<T(==)>(hay: seq<T>, needle: seq<T>): (r: Option<nat>)
    ensures r.Some? ==> r.value + |needle| <= |hay|
    decreases |hay|
  {
    if |needle| <= |hay| && hay[..|needle|] == needle then Some(0)
    else if hay == [] then None
    else match IndexOf(hay[1..], needle)
      case None => None
      case Some(k) => Some(k + 1)
  }

  predicate Contains<T(==)>(hay: seq<T>, needle: seq<T>) {
    IndexOf(hay, needle).Some?
  }

  lemma {:induction false} IndexOfFirst<T>(hay: seq<T>, needle: seq<T>)
    ensures IndexOf(hay, needle).None? ==> forall k :: !Matches(hay, needle, k)
    ensures IndexOf(hay, needle).Some? ==>
      Matches(hay, needle, IndexOf(hay, needle).value) && forall k :: k < IndexOf(hay, needle).value ==> !Matches(hay, needle, k)
    decreases |hay|
  {
    if !(|needle| <= |hay| && hay[..|needle|] == needle) && hay != [] {
      IndexOfFirst(hay[1..], needle);
      forall k | k > 0 ensures Matches(hay, needle, k) <==> Matches(hay[1..], needle, k - 1) {
        MatchesTail(hay, needle, k);
      }
    }
  }

  lemma MatchesTail<T>(hay: seq<T>, needle: seq<T>, k: int)
    requires hay != [] && k > 0
    ensures Matches(hay, needle, k) <==> Matches(hay[1..], needle, k - 1)
  {
    if k + |needle| <= |hay| {
      assert hay[1..][k - 1..k - 1 + |needle|] == hay[k..k + |needle|];
    }
  }
}
