/**
 * First-occurrence search over sequences, as `find` in multipart.rs does it, and the
 * facts about searching a prefix, a suffix or an already scanned buffer on which the
 * incremental parser depends.
 */
module Search {
  import opened Basics

  /** `needle` occurs in `hay` at offset `i`. */
  predicate OccursAt<T(==)>(hay: seq<T>, needle: seq<T>, i: int) {
    0 <= i && i + |needle| <= |hay| && hay[i..i + |needle|] == needle
  }

  /** The least offset at which `needle` occurs; an empty needle is never found. */
  function Find<T(==)>(hay: seq<T>, needle: seq<T>): (r: Option<nat>)
    ensures r.Some? ==> needle != [] && OccursAt(hay, needle, r.value)
    ensures r.Some? ==> forall i :: 0 <= i < r.value ==> !OccursAt(hay, needle, i)
    ensures r.None? && needle != [] ==> forall i :: !OccursAt(hay, needle, i)
  {
    if needle == [] then None else FindFrom(hay, needle, 0)
  }

  function FindFrom<T(==)>(hay: seq<T>, needle: seq<T>, from: nat): (r: Option<nat>)
    requires needle != []
    ensures r.Some? ==> from <= r.value && OccursAt(hay, needle, r.value)
    ensures r.Some? ==> forall i :: from <= i < r.value ==> !OccursAt(hay, needle, i)
    ensures r.None? ==> forall i :: from <= i ==> !OccursAt(hay, needle, i)
    decreases |hay| - from
  {
    if from + |needle| > |hay| then None
    else if OccursAt(hay, needle, from) then Some(from)
    else FindFrom(hay, needle, from + 1)
  }

  /** `Find` is determined by its contract. */
  lemma FindIs<T>(hay: seq<T>, needle: seq<T>, i: nat)
    requires needle != [] && OccursAt(hay, needle, i)
    requires forall j :: 0 <= j < i ==> !OccursAt(hay, needle, j)
    ensures Find(hay, needle) == Some(i)
  {
  }

  lemma FindNone<T>(hay: seq<T>, needle: seq<T>)
    requires forall j :: !OccursAt(hay, needle, j)
    ensures Find(hay, needle) == None
  {
  }

  /** No occurrence can start at an element other than the needle's first. */
  lemma NoOccurrenceHere<T>(hay: seq<T>, needle: seq<T>, i: int)
    requires needle != [] && (0 <= i < |hay| ==> hay[i] != needle[0])
    ensures !OccursAt(hay, needle, i)
  {
    if 0 <= i && i + |needle| <= |hay| {
      assert hay[i..i + |needle|][0] == hay[i];
    }
  }

  /** An occurrence inside a prefix is an occurrence in the whole, and conversely. */
  lemma OccursInPrefix<T>(buf: seq<T>, tail: seq<T>, needle: seq<T>, i: int)
    requires 0 <= i && i + |needle| <= |buf|
    ensures OccursAt(buf + tail, needle, i) <==> OccursAt(buf, needle, i)
  {
    assert (buf + tail)[i..i + |needle|] == buf[i..i + |needle|];
  }

  /** A hit in the bytes received so far is the hit of the whole stream. */
  lemma FindInPrefix<T>(buf: seq<T>, tail: seq<T>, needle: seq<T>)
    requires Find(buf, needle).Some?
    ensures Find(buf + tail, needle) == Find(buf, needle)
  {
    var i := Find(buf, needle).value;
    OccursInPrefix(buf, tail, needle, i);
    forall j | 0 <= j < i ensures !OccursAt(buf + tail, needle, j) {
      OccursInPrefix(buf, tail, needle, j);
    }
    FindIs(buf + tail, needle, i);
  }

  /** With no hit so far, a later hit must end beyond the bytes received so far. */
  lemma FindBeyondPrefix<T>(buf: seq<T>, tail: seq<T>, needle: seq<T>)
    requires needle != [] && Find(buf, needle).None?
    ensures forall j :: OccursAt(buf + tail, needle, j) ==> j + |needle| > |buf|
  {
    forall j | OccursAt(buf + tail, needle, j) ensures j + |needle| > |buf| {
      if j + |needle| <= |buf| { OccursInPrefix(buf, tail, needle, j); }
    }
  }

  lemma OccursAfterDrop<T>(hay: seq<T>, needle: seq<T>, n: nat, i: int)
    requires n <= |hay| && 0 <= i
    ensures OccursAt(hay[n..], needle, i) <==> OccursAt(hay, needle, i + n)
  {
    if i + n + |needle| <= |hay| {
      assert hay[n..][i..i + |needle|] == hay[i + n..i + n + |needle|];
    }
  }

  /** Dropping bytes that start no occurrence only shifts the answer. */
  lemma FindAfterDrop<T>(hay: seq<T>, needle: seq<T>, n: nat)
    requires needle != [] && n <= |hay|
    requires forall j :: 0 <= j < n ==> !OccursAt(hay, needle, j)
    ensures Find(hay, needle) ==
            match Find(hay[n..], needle) { case None => None case Some(i) => Some(i + n) }
  {
    match Find(hay[n..], needle)
    case None =>
      forall j ensures !OccursAt(hay, needle, j) {
        if j >= n { OccursAfterDrop(hay, needle, n, j - n); }
      }
    case Some(i) =>
      OccursAfterDrop(hay, needle, n, i);
      forall j | 0 <= j < i + n ensures !OccursAt(hay, needle, j) {
        if j >= n { OccursAfterDrop(hay, needle, n, j - n); }
      }
      FindIs(hay, needle, i + n);
  }

  /**
   * The first `scanned` bytes are known to hold no occurrence; a scan resumed at most
   * `|needle| - 1` bytes before that point finds what a scan from the start finds.
   */
  lemma ResumedScan<T>(hay: seq<T>, needle: seq<T>, scanned: nat, start: nat)
    requires needle != [] && scanned <= |hay|
    requires Find(hay[..scanned], needle).None?
    requires start == 0 || start <= scanned - (|needle| - 1)
    ensures start <= |hay|
    ensures Find(hay, needle) ==
            match Find(hay[start..], needle) { case None => None case Some(i) => Some(i + start) }
  {
    assert hay[..scanned] + hay[scanned..] == hay;
    FindBeyondPrefix(hay[..scanned], hay[scanned..], needle);
    FindAfterDrop(hay, needle, start);
  }
}
