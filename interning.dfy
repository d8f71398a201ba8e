/**
 * Interning: the label dictionary that compresses signatures into codes.
 *
 * A dictionary maps a signature to a code. A signature seen for the first
 * time gets the code `'' + (size + 1)`, so codes are "1", "2", "3", ... in
 * first-seen order; a signature seen before gets the code it already has.
 */
module Interning {
  import opened Labels

  /** The dictionary's invariant: every code is the decimal text of a number
      between 1 and the dictionary's size, and no two signatures share a code. */
  predicate WellNumbered(d: map<string, string>)
  {
    && (forall s :: s in d ==> IsCodeUpTo(d[s], |d|))
    && (forall s, t :: s in d && t in d && s != t ==> d[s] != d[t])
  }

  /** `c` is the decimal text of one of the numbers 1..n. */
  predicate IsCodeUpTo(c: string, n: nat)
  {
    1 <= Decode(c) <= n && Code(Decode(c)) == c
  }

  /** Adding a new signature with the next code keeps the numbering. */
  lemma AddKeepsNumbering(d: map<string, string>, sig: string)
    requires sig !in d
    ensures WellNumbered(d) ==> WellNumbered(d[sig := Code(|d| + 1)])
  {
    if !WellNumbered(d) { return; }
    var code := Code(|d| + 1);
    var e := d[sig := code];
    DecodeCode(|d| + 1);
    assert |e| == |d| + 1;
    forall s | s in e ensures IsCodeUpTo(e[s], |e|) {
      if s != sig { assert IsCodeUpTo(d[s], |d|); }
    }
    forall s, t | s in e && t in e && s != t ensures e[s] != e[t] {
      if s == sig { assert IsCodeUpTo(d[t], |d|); }
      else if t == sig { assert IsCodeUpTo(d[s], |d|); }
    }
  }

  /** `d` is contained in `e`: every entry of `d` is in `e` unchanged. */
  predicate Extends(e: map<string, string>, d: map<string, string>)
  {
    forall s :: s in d ==> s in e && e[s] == d[s]
  }

  datatype Lookup = Lookup(code: string, dict: map<string, string>)

  /** Resolving one signature (`dictionary.get(hash)`, and on a miss
      `dictionary.set(hash, '' + (dictionary.size + 1))`). */
  function Resolve(d: map<string, string>, sig: string): (r: Lookup)
    ensures sig in r.dict && r.dict[sig] == r.code
    ensures r.dict.Keys == d.Keys + {sig}
    ensures Extends(r.dict, d)
    ensures sig in d ==> r.dict == d
    ensures sig !in d ==> r.code == Code(|d| + 1) && |r.dict| == |d| + 1
    ensures WellNumbered(d) ==> WellNumbered(r.dict)
  {
    if sig in d then Lookup(d[sig], d)
    else
      var code := Code(|d| + 1);
      AddKeepsNumbering(d, sig);
      Lookup(code, d[sig := code])
  }

  datatype Interned = Interned(codes: seq<string>, dict: map<string, string>)

  /** Resolving a list of signatures one after the other, each lookup seeing
      the entries the earlier ones added. */
  function InternAll(sigs: seq<string>, d: map<string, string>): (r: Interned)
    ensures |r.codes| == |sigs|
    ensures forall i :: 0 <= i < |sigs| ==> sigs[i] in r.dict && r.codes[i] == r.dict[sigs[i]]
    ensures forall s :: s in r.dict <==> s in d || s in sigs
    ensures Extends(r.dict, d)
    ensures WellNumbered(d) ==> WellNumbered(r.dict)
    decreases |sigs|
  {
    if |sigs| == 0 then Interned([], d)
    else
      var init, sig := sigs[..|sigs| - 1], sigs[|sigs| - 1];
      var prefix := InternAll(init, d);
      var last := Resolve(prefix.dict, sig);
      InternStep(sigs, d, prefix, last);
      Interned(prefix.codes + [last.code], last.dict)
  }

  /** One more lookup after a list of lookups keeps what InternAll promises. */
  lemma InternStep(sigs: seq<string>, d: map<string, string>, prefix: Interned, last: Lookup)
    requires |sigs| > 0
    requires |prefix.codes| == |sigs| - 1
    requires forall i :: 0 <= i < |sigs| - 1 ==> sigs[i] in prefix.dict && prefix.codes[i] == prefix.dict[sigs[i]]
    requires forall s :: s in prefix.dict <==> s in d || s in sigs[..|sigs| - 1]
    requires Extends(prefix.dict, d)
    requires sigs[|sigs| - 1] in last.dict && last.dict[sigs[|sigs| - 1]] == last.code
    requires last.dict.Keys == prefix.dict.Keys + {sigs[|sigs| - 1]}
    requires Extends(last.dict, prefix.dict)
    ensures forall i :: 0 <= i < |sigs| ==> sigs[i] in last.dict && (prefix.codes + [last.code])[i] == last.dict[sigs[i]]
    ensures forall s :: s in last.dict <==> s in d || s in sigs
    ensures Extends(last.dict, d)
  {
    var init, sig := sigs[..|sigs| - 1], sigs[|sigs| - 1];
    assert sigs == init + [sig];
    forall i | 0 <= i < |sigs| ensures sigs[i] in last.dict && (prefix.codes + [last.code])[i] == last.dict[sigs[i]] {
      if i < |init| {
        assert init[i] == sigs[i];
      }
    }
    forall s ensures s in last.dict <==> s in d || s in sigs {
      assert s in sigs <==> s in init || s == sig;
    }
  }

  /** Resolving one more signature after a list of them. */
  lemma InternAllSnoc(sigs: seq<string>, sig: string, d: map<string, string>)
    ensures var prefix := InternAll(sigs, d); var last := Resolve(prefix.dict, sig);
      InternAll(sigs + [sig], d) == Interned(prefix.codes + [last.code], last.dict)
  {
    assert (sigs + [sig])[..|sigs|] == sigs;
  }

  /** Within one dictionary, two signatures get the same code exactly when
      they are the same signature. */
  lemma CodesDistinguishSignatures(sigs: seq<string>, d: map<string, string>, i: nat, j: nat)
    requires WellNumbered(d)
    requires i < |sigs| && j < |sigs|
    ensures InternAll(sigs, d).codes[i] == InternAll(sigs, d).codes[j] <==> sigs[i] == sigs[j]
  {
  }

  /** When every signature is already known, resolving them adds nothing. */
  lemma InternAllKnown(sigs: seq<string>, d: map<string, string>)
    requires forall i :: 0 <= i < |sigs| ==> sigs[i] in d
    ensures InternAll(sigs, d).dict == d
    ensures forall i :: 0 <= i < |sigs| ==> InternAll(sigs, d).codes[i] == d[sigs[i]]
  {
    var r := InternAll(sigs, d);
    assert r.dict.Keys == d.Keys;
  }

  /** Appending one element to a short list display. */
  lemma Snoc<T>(s: seq<T>, x: T)
    requires |s| <= 2
    ensures |s| == 0 ==> s + [x] == [x]
    ensures |s| == 1 ==> s + [x] == [s[0], x]
    ensures |s| == 2 ==> s + [x] == [s[0], s[1], x]
  {
  }

  /** Interning two distinct signatures into a fresh dictionary numbers
      them 1 and 2. */
  lemma InternTwo(x: string, y: string)
    requires x != y
    ensures InternAll([x, y], map[]) == Interned([Code(1), Code(2)], map[x := Code(1), y := Code(2)])
  {
    var d1 := map[x := Code(1)];
    InternAllSnoc([], x, map[]);
    Snoc([], x);
    assert InternAll([x], map[]) == Interned([Code(1)], d1);
    assert |d1| == 1;
    InternAllSnoc([x], y, map[]);
    Snoc([x], y);
    Snoc([Code(1)], Code(2));
  }

  /** Interning three signatures, the first two distinct, into a fresh
      dictionary: the third repeats the code of the one it equals. */
  lemma InternThree(x: string, y: string, z: string)
    requires x != y && (z == x || z == y)
    ensures InternAll([x, y, z], map[]).codes == [Code(1), Code(2), if z == x then Code(1) else Code(2)]
  {
    InternTwo(x, y);
    var d2 := map[x := Code(1), y := Code(2)];
    InternAllSnoc([x, y], z, map[]);
    Snoc([x, y], z);
    assert z in d2;
    Snoc([Code(1), Code(2)], d2[z]);
  }

  /** The label dictionary of one session, a `Map` extended in place. */
  class Dictionary {
    var entries: map<string, string>

    constructor ()
      ensures entries == map[]
    {
      entries := map[];
    }

    /** The code of `sig`, adding `sig` with the next code when it is new. */
    method LookupOrInsert(sig: string) returns (code: string)
      modifies this
      ensures Lookup(code, entries) == Resolve(old(entries), sig)
    {
      if sig in entries {
        code := entries[sig];
      } else {
        code := Code(|entries| + 1);
        entries := entries[sig := code];
      }
    }
  }
}
