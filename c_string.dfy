/**
 * NUL-terminated strings inside fixed character buffers, as the C code reads
 * them: a string runs from a start index to the first NUL (or the buffer end),
 * and strchr scans it for a character.
 */
module CString {
  import opened Wrappers

  const NUL: char := '\0'

  /** Index of the NUL that ends the string starting at `from` (|s| if the buffer holds none). */
  function CEnd(s: seq<char>, from: nat): (e: nat)
    requires from <= |s|
    decreases |s| - from
    ensures from <= e <= |s|
    ensures forall j :: from <= j < e ==> s[j] != NUL
    ensures e < |s| ==> s[e] == NUL
  {
    if from == |s| || s[from] == NUL then from else CEnd(s, from + 1)
  }

  /** The C string at `from`: its characters up to, not including, the terminator. */
  function CStr(s: seq<char>, from: nat): (r: seq<char>)
    requires from <= |s|
    ensures NUL !in r
    ensures from + |r| <= |s| && r == s[from..from + |r|]
    ensures from + |r| < |s| ==> s[from + |r|] == NUL
  {
    s[from..CEnd(s, from)]
  }

  /** A NUL at i with none before it, from `from` on, ends the string at i. */
  lemma {:induction false} CEndAt(s: seq<char>, from: nat, i: nat)
    requires from <= i <= |s|
    requires i < |s| ==> s[i] == NUL
    requires forall j :: from <= j < i ==> s[j] != NUL
    ensures CEnd(s, from) == i
    decreases i - from
  {
    if from < i {
      CEndAt(s, from + 1, i);
    }
  }

  /** strchr(s + from, c) for a non-NUL c: the first c before the terminator, if any. */
  function Strchr(s: seq<char>, from: nat, c: char): (r: Option<nat>)
    requires from <= |s| && c != NUL
    decreases |s| - from
    ensures r.Some? ==> from <= r.value < CEnd(s, from) && s[r.value] == c
    ensures r.Some? ==> forall j :: from <= j < r.value ==> s[j] != c
    ensures r.None? ==> forall j :: from <= j < CEnd(s, from) ==> s[j] != c
  {
    if from == |s| || s[from] == NUL then None
    else if s[from] == c then Some(from)
    else Strchr(s, from + 1, c)
  }

  /** strchr finds the c at i when nothing before it, from `from` on, is c or NUL. */
  lemma {:induction false} StrchrAt(s: seq<char>, from: nat, c: char, i: nat)
    requires c != NUL && from <= i < |s| && s[i] == c
    requires forall j :: from <= j < i ==> s[j] != c && s[j] != NUL
    ensures Strchr(s, from, c) == Some(i)
    decreases i - from
  {
    if from < i {
      StrchrAt(s, from + 1, c, i);
    }
  }

  /** strncmp(s, prefix, |prefix|) == 0 for a NUL-free prefix. */
  predicate StartsWith(s: seq<char>, prefix: seq<char>) {
    |prefix| <= |s| && s[..|prefix|] == prefix
  }
}
