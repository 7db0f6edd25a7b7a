/** Greedy semantic clustering of free-text questions (`groupSimilarTexts`).

    The text normaliser `cleanText`, the embedding provider `getEmbeddings`
    and `cosineSimilarity` are not part of this model: the normaliser is the
    parameter `clean`, the provider is the parameter `embed` (one vector per
    key, in order) and the similarity is the parameter `cosine`, compared
    with `threshold` by `>=`. */
module Embedding {
  import opened Common
  import opened Sorting

  /** One entry of the result: `{ representative, similar_questions, total_count }`. */
  datatype Group = Group(representative: string, similarQuestions: seq<string>, totalCount: int)

  function TotalCountOf(g: Group): int
  {
    g.totalCount
  }

  // ---------------------------------------------------------------------------
  // Step 1: normalise and count. These functions describe what the two maps
  // hold after the first `n` inputs; the last input is the last one applied.
  // ---------------------------------------------------------------------------

  /** The distinct non-empty cleaned keys in order of first occurrence:
      `Array.from(frequencyMap.keys())`. */
  function Keys(texts: seq<string>, clean: string -> string): seq<string>
  {
    if texts == [] then []
    else
      var ks := Keys(texts[..|texts| - 1], clean);
      var c := clean(texts[|texts| - 1]);
      if c == "" || c in ks then ks else ks + [c]
  }

  /** How many inputs clean to `c`. */
  function Frequency(texts: seq<string>, clean: string -> string, c: string): nat
  {
    if texts == [] then 0
    else Frequency(texts[..|texts| - 1], clean, c) + (if clean(texts[|texts| - 1]) == c then 1 else 0)
  }

  /** The raw text `cleanedMap` holds for `c`: `Map.set` overwrites, so it is
      the LAST input that cleans to `c`. */
  function LastRaw(texts: seq<string>, clean: string -> string, c: string): string
  {
    if texts == [] then ""
    else if clean(texts[|texts| - 1]) == c then texts[|texts| - 1]
    else LastRaw(texts[..|texts| - 1], clean, c)
  }

  /** How many inputs have a non-empty cleaned form. */
  function NonEmptyCount(texts: seq<string>, clean: string -> string): nat
  {
    if texts == [] then 0
    else NonEmptyCount(texts[..|texts| - 1], clean) + (if clean(texts[|texts| - 1]) != "" then 1 else 0)
  }

  /** `frequencyMap` after all inputs. */
  function FrequencyMapOf(texts: seq<string>, clean: string -> string): map<string, nat>
  {
    map c | c in Keys(texts, clean) :: Frequency(texts, clean, c)
  }

  /** `cleanedMap` after all inputs. */
  function CleanedMapOf(texts: seq<string>, clean: string -> string): map<string, string>
  {
    map c | c in Keys(texts, clean) :: LastRaw(texts, clean, c)
  }

  /** A key is listed exactly when it is non-empty and some input cleans to it. */
  lemma {:induction false} KeysFrequency(texts: seq<string>, clean: string -> string, c: string)
    ensures c in Keys(texts, clean) <==> c != "" && Frequency(texts, clean, c) > 0
  {
    if texts != [] {
      KeysFrequency(texts[..|texts| - 1], clean, c);
    }
  }

  /** No key is listed twice and the empty string is never a key. */
  lemma {:induction false} KeysDistinct(texts: seq<string>, clean: string -> string)
    ensures Distinct(Keys(texts, clean))
    ensures "" !in Keys(texts, clean)
  {
    if texts != [] {
      KeysDistinct(texts[..|texts| - 1], clean);
    }
  }

  /** The key list is empty exactly when every input cleans to the empty string. */
  lemma {:induction false} KeysEmpty(texts: seq<string>, clean: string -> string)
    ensures Keys(texts, clean) == [] <==> forall i :: 0 <= i < |texts| ==> clean(texts[i]) == ""
  {
    if texts != [] {
      var p := texts[..|texts| - 1];
      KeysEmpty(p, clean);
      if Keys(texts, clean) == [] {
        forall i | 0 <= i < |texts| ensures clean(texts[i]) == "" {
          if i < |p| {
            assert texts[i] == p[i];
          }
        }
      } else if Keys(p, clean) != [] {
        var i :| 0 <= i < |p| && clean(p[i]) != "";
        assert texts[i] == p[i];
      }
    }
  }

  /** The stored raw text cleans back to its key, and it is the last input that does. */
  lemma {:induction false} LastRawIsLast(texts: seq<string>, clean: string -> string, c: string)
    requires c in Keys(texts, clean)
    ensures exists i :: 0 <= i < |texts| && texts[i] == LastRaw(texts, clean, c) && clean(texts[i]) == c
                        && forall j :: i < j < |texts| ==> clean(texts[j]) != c
  {
    var p := texts[..|texts| - 1];
    var n := |texts| - 1;
    if clean(texts[n]) == c {
      assert texts[n] == LastRaw(texts, clean, c);
    } else {
      assert c in Keys(p, clean);
      LastRawIsLast(p, clean, c);
      var i :| 0 <= i < |p| && p[i] == LastRaw(p, clean, c) && clean(p[i]) == c
               && forall j :: i < j < |p| ==> clean(p[j]) != c;
      assert texts[i] == p[i];
      forall j | i < j < |texts| ensures clean(texts[j]) != c {
        if j < n {
          assert texts[j] == p[j];
        }
      }
    }
  }

  /** Adding one input with a non-empty cleaned form sets its key in both maps. */
  lemma MapsStep(p: seq<string>, t: string, clean: string -> string)
    requires clean(t) != ""
    ensures (p + [t])[..|p|] == p
    ensures FrequencyMapOf(p + [t], clean)
         == FrequencyMapOf(p, clean)[clean(t) := (if clean(t) in FrequencyMapOf(p, clean) then FrequencyMapOf(p, clean)[clean(t)] else 0) + 1]
    ensures CleanedMapOf(p + [t], clean) == CleanedMapOf(p, clean)[clean(t) := t]
  {
    var texts := p + [t];
    assert texts[..|p|] == p;
    var c := clean(t);
    KeysFrequency(p, clean, c);
    var fm := FrequencyMapOf(p, clean);
    var fm' := fm[c := (if c in fm then fm[c] else 0) + 1];
    forall k ensures k in FrequencyMapOf(texts, clean) <==> k in fm' {
      KeysFrequency(texts, clean, k);
      KeysFrequency(p, clean, k);
    }
    assert FrequencyMapOf(texts, clean) == fm';
  }

  /** An input whose cleaned form is empty changes neither map. */
  lemma MapsSkip(p: seq<string>, t: string, clean: string -> string)
    requires clean(t) == ""
    ensures FrequencyMapOf(p + [t], clean) == FrequencyMapOf(p, clean)
    ensures CleanedMapOf(p + [t], clean) == CleanedMapOf(p, clean)
  {
    var texts := p + [t];
    assert texts[..|p|] == p;
    forall k ensures k in FrequencyMapOf(texts, clean) <==> k in FrequencyMapOf(p, clean) {
      KeysFrequency(texts, clean, k);
      KeysFrequency(p, clean, k);
    }
    forall k | k in FrequencyMapOf(p, clean)
      ensures FrequencyMapOf(texts, clean)[k] == FrequencyMapOf(p, clean)[k]
    {
      KeysFrequency(p, clean, k);
      assert Frequency(texts, clean, k) == Frequency(p, clean, k);
    }
  }

  /** The frequencies of the keys add up to the number of non-empty inputs. */
  function SumFrequencies(ks: seq<string>, texts: seq<string>, clean: string -> string): int
  {
    if ks == [] then 0 else Frequency(texts, clean, ks[0]) + SumFrequencies(ks[1..], texts, clean)
  }

  lemma {:induction false} SumFrequenciesAppend(ks: seq<string>, c: string, texts: seq<string>, clean: string -> string)
    ensures SumFrequencies(ks + [c], texts, clean) == SumFrequencies(ks, texts, clean) + Frequency(texts, clean, c)
  {
    if ks == [] {
      assert ks + [c] == [c];
    } else {
      assert (ks + [c])[1..] == ks[1..] + [c];
      SumFrequenciesAppend(ks[1..], c, texts, clean);
    }
  }

  /** Appending input `t` raises the frequency of its key only. */
  lemma {:induction false} SumFrequenciesStep(ks: seq<string>, p: seq<string>, t: string, clean: string -> string)
    requires Distinct(ks)
    ensures SumFrequencies(ks, p + [t], clean) == SumFrequencies(ks, p, clean) + (if clean(t) in ks then 1 else 0)
  {
    var texts := p + [t];
    assert texts[..|texts| - 1] == p;
    if ks != [] {
      assert Distinct(ks[1..]) by {
        forall a, b | 0 <= a < b < |ks[1..]| ensures ks[1..][a] != ks[1..][b] {
          assert ks[1..][a] == ks[a + 1] && ks[1..][b] == ks[b + 1];
        }
      }
      SumFrequenciesStep(ks[1..], p, t, clean);
      if clean(t) == ks[0] {
        assert clean(t) !in ks[1..] by {
          forall k | 0 <= k < |ks[1..]| ensures ks[1..][k] != ks[0] {
            assert ks[1..][k] == ks[k + 1];
          }
        }
      }
      assert clean(t) in ks <==> clean(t) == ks[0] || clean(t) in ks[1..];
    }
  }

  /** Count conservation of step 1: summing the frequency of every key counts
      every input whose cleaned form is non-empty, once. */
  lemma {:induction false} FrequenciesAddUp(texts: seq<string>, clean: string -> string)
    ensures SumFrequencies(Keys(texts, clean), texts, clean) == NonEmptyCount(texts, clean)
  {
    if texts != [] {
      var p := texts[..|texts| - 1];
      var t := texts[|texts| - 1];
      assert texts == p + [t];
      var ks := Keys(p, clean);
      var c := clean(t);
      FrequenciesAddUp(p, clean);
      KeysDistinct(p, clean);
      SumFrequenciesStep(ks, p, t, clean);
      if c != "" && c !in ks {
        SumFrequenciesAppend(ks, c, texts, clean);
        KeysFrequency(p, clean, c);
        assert Frequency(texts, clean, c) == 1;
      }
    }
  }

  /** Step 1 as the source runs it: one pass over the inputs that fills
      `cleanedMap` and `frequencyMap`; `keys` records the maps' insertion order. */
  method Normalize(texts: seq<string>, clean: string -> string)
    returns (keys: seq<string>, cleanedMap: map<string, string>, frequencyMap: map<string, nat>)
    ensures keys == Keys(texts, clean)
    ensures cleanedMap == CleanedMapOf(texts, clean)
    ensures frequencyMap == FrequencyMapOf(texts, clean)
  {
    keys, cleanedMap, frequencyMap := [], map[], map[];
    for i := 0 to |texts|
      invariant keys == Keys(texts[..i], clean)
      invariant cleanedMap == CleanedMapOf(texts[..i], clean)
      invariant frequencyMap == FrequencyMapOf(texts[..i], clean)
    {
      assert texts[..i + 1] == texts[..i] + [texts[i]];
      keys, cleanedMap, frequencyMap := Record(texts[..i], texts[i], clean, keys, cleanedMap, frequencyMap);
    }
    assert texts[..|texts|] == texts;
  }

  /** The body of the loop for one input `t` after the inputs `p`: an input
      that cleans to the empty string is skipped; otherwise its key is set in
      both maps and listed if new. */
  method Record(p: seq<string>, t: string, clean: string -> string,
                keys: seq<string>, cleanedMap: map<string, string>, frequencyMap: map<string, nat>)
    returns (keys': seq<string>, cleanedMap': map<string, string>, frequencyMap': map<string, nat>)
    requires keys == Keys(p, clean)
    requires cleanedMap == CleanedMapOf(p, clean)
    requires frequencyMap == FrequencyMapOf(p, clean)
    ensures keys' == Keys(p + [t], clean)
    ensures cleanedMap' == CleanedMapOf(p + [t], clean)
    ensures frequencyMap' == FrequencyMapOf(p + [t], clean)
  {
    var cleaned := clean(t);
    if cleaned == "" {
      MapsSkip(p, t, clean);
      return keys, cleanedMap, frequencyMap;
    }
    MapsStep(p, t, clean);
    cleanedMap' := cleanedMap[cleaned := t];
    var count := if cleaned in frequencyMap then frequencyMap[cleaned] else 0;
    frequencyMap' := frequencyMap[cleaned := count + 1];
    keys' := keys;
    if cleaned !in keys {
      keys' := keys + [cleaned];
    }
  }

  // ---------------------------------------------------------------------------
  // Step 3: single-pass greedy clustering over the indices of the batch.
  // ---------------------------------------------------------------------------

  /** `cosineSimilarity(embeddings[i], embeddings[j]) >= threshold` for two
      indices of the batch: the comparison with the threshold is inclusive. */
  predicate Similar<V>(emb: seq<V>, cosine: (V, V) -> real, threshold: real, i: nat, j: nat)
  {
    i < |emb| && j < |emb| && cosine(emb[i], emb[j]) >= threshold
  }

  /** Every index of `c` lies in `lo .. hi - 1`. */
  predicate InRange(c: seq<nat>, lo: nat, hi: nat)
  {
    forall m :: 0 <= m < |c| ==> lo <= c[m] < hi
  }

  /** Every cluster is non-empty and holds indices in `lo .. hi - 1`. */
  predicate Within(cs: seq<seq<nat>>, lo: nat, hi: nat)
  {
    forall k :: 0 <= k < |cs| ==> |cs[k]| > 0 && InRange(cs[k], lo, hi)
  }

  lemma InRangeSnoc(c: seq<nat>, x: nat, lo: nat, hi: nat)
    requires InRange(c, lo, hi) && lo <= x < hi
    ensures InRange(c + [x], lo, hi)
  {
  }

  lemma WithinCons(c: seq<nat>, rest: seq<seq<nat>>, lo: nat, hi: nat)
    requires |c| > 0 && InRange(c, lo, hi) && Within(rest, lo + 1, hi)
    ensures Within([c] + rest, lo, hi)
  {
    var cs := [c] + rest;
    forall k | 0 <= k < |cs| ensures |cs[k]| > 0 && InRange(cs[k], lo, hi) {
      if k > 0 {
        assert cs[k] == rest[k - 1];
      }
    }
  }

  /** The indices the inner loop adds to the cluster seeded at `i` while `j`
      runs over `i + 1 .. hi - 1`: those not yet used that are similar to the seed. */
  function Scan<V>(emb: seq<V>, cosine: (V, V) -> real, threshold: real, used: set<nat>, i: nat, hi: nat): (r: seq<nat>)
    requires i < |emb| && hi <= |emb|
    ensures InRange([i] + r, i, |emb|)
    ensures InRange(r, i + 1, |emb|)
    decreases hi
  {
    if hi <= i + 1 then []
    else
      var found := Scan(emb, cosine, threshold, used, i, hi - 1);
      if hi - 1 !in used && Similar(emb, cosine, threshold, i, hi - 1) then
        InRangeSnoc([i] + found, hi - 1, i, |emb|);
        assert [i] + (found + [hi - 1]) == [i] + found + [hi - 1];
        found + [hi - 1]
      else
        assert found + [] == found;
        found + []
  }

  /** Every index of `r` lies in `i + 1 .. hi - 1`, is unused and is similar to seed `i`. */
  predicate MembersSimilar<V>(emb: seq<V>, cosine: (V, V) -> real, threshold: real, used: set<nat>, i: nat, hi: nat, r: seq<nat>)
  {
    forall k :: 0 <= k < |r| ==> i < r[k] < hi && r[k] !in used && Similar(emb, cosine, threshold, i, r[k])
  }

  predicate Ascending(r: seq<nat>)
  {
    forall k, l :: 0 <= k < l < |r| ==> r[k] < r[l]
  }

  /** Every unused index in `i + 1 .. hi - 1` similar to seed `i` is in `r`. */
  predicate MembersComplete<V>(emb: seq<V>, cosine: (V, V) -> real, threshold: real, used: set<nat>, i: nat, hi: nat, r: seq<nat>)
  {
    forall j :: i < j < hi && j !in used && Similar(emb, cosine, threshold, i, j) ==> j in r
  }

  /** `r` is exactly the unused indices in `i + 1 .. hi - 1` similar to seed
      `i`, in ascending order. */
  predicate Collected<V>(emb: seq<V>, cosine: (V, V) -> real, threshold: real, used: set<nat>, i: nat, hi: nat, r: seq<nat>)
  {
    && MembersSimilar(emb, cosine, threshold, used, i, hi, r)
    && Ascending(r)
    && MembersComplete(emb, cosine, threshold, used, i, hi, r)
  }

  /** The members found for seed `i` are exactly the unused indices after it
      that are similar to it, in ascending order. */
  lemma ScanMembers<V>(emb: seq<V>, cosine: (V, V) -> real, threshold: real, used: set<nat>, i: nat, hi: nat)
    requires i < |emb| && hi <= |emb|
    ensures Collected(emb, cosine, threshold, used, i, hi, Scan(emb, cosine, threshold, used, i, hi))
  {
    ScanSound(emb, cosine, threshold, used, i, hi);
    ScanAscending(emb, cosine, threshold, used, i, hi);
    ScanComplete(emb, cosine, threshold, used, i, hi);
  }

  lemma {:induction false} ScanSound<V>(emb: seq<V>, cosine: (V, V) -> real, threshold: real, used: set<nat>, i: nat, hi: nat)
    requires i < |emb| && hi <= |emb|
    ensures MembersSimilar(emb, cosine, threshold, used, i, hi, Scan(emb, cosine, threshold, used, i, hi))
    decreases hi
  {
    if hi > i + 1 {
      ScanSound(emb, cosine, threshold, used, i, hi - 1);
      var prev := Scan(emb, cosine, threshold, used, i, hi - 1);
      if hi - 1 !in used && Similar(emb, cosine, threshold, i, hi - 1) {
        var r := prev + [hi - 1];
        assert Scan(emb, cosine, threshold, used, i, hi) == r;
        forall k | 0 <= k < |r|
          ensures i < r[k] < hi && r[k] !in used && Similar(emb, cosine, threshold, i, r[k])
        {
          if k < |prev| {
            assert r[k] == prev[k];
          }
        }
      } else {
        assert Scan(emb, cosine, threshold, used, i, hi) == prev;
      }
    }
  }

  lemma {:induction false} ScanAscending<V>(emb: seq<V>, cosine: (V, V) -> real, threshold: real, used: set<nat>, i: nat, hi: nat)
    requires i < |emb| && hi <= |emb|
    ensures Ascending(Scan(emb, cosine, threshold, used, i, hi))
    decreases hi
  {
    if hi > i + 1 {
      ScanAscending(emb, cosine, threshold, used, i, hi - 1);
      ScanSound(emb, cosine, threshold, used, i, hi - 1);
      var prev := Scan(emb, cosine, threshold, used, i, hi - 1);
      if hi - 1 !in used && Similar(emb, cosine, threshold, i, hi - 1) {
        var r := prev + [hi - 1];
        assert Scan(emb, cosine, threshold, used, i, hi) == r;
        assert forall k :: 0 <= k < |prev| ==> r[k] == prev[k] < hi - 1;
      } else {
        assert Scan(emb, cosine, threshold, used, i, hi) == prev;
      }
    }
  }

  lemma {:induction false} ScanComplete<V>(emb: seq<V>, cosine: (V, V) -> real, threshold: real, used: set<nat>, i: nat, hi: nat)
    requires i < |emb| && hi <= |emb|
    ensures MembersComplete(emb, cosine, threshold, used, i, hi, Scan(emb, cosine, threshold, used, i, hi))
    decreases hi
  {
    if hi > i + 1 {
      ScanComplete(emb, cosine, threshold, used, i, hi - 1);
    }
  }

  /** The `used` set once the inner loop for seed `i` has run up to `hi - 1`. */
  function ScanUsed<V>(emb: seq<V>, cosine: (V, V) -> real, threshold: real, used: set<nat>, i: nat, hi: nat): set<nat>
    requires i < |emb| && hi <= |emb|
    decreases hi
  {
    if hi <= i + 1 then used + {i}
    else ScanUsed(emb, cosine, threshold, used, i, hi - 1)
         + (if hi - 1 !in used && Similar(emb, cosine, threshold, i, hi - 1) then {hi - 1} else {})
  }

  /** The inner loop marks exactly the seed and the members it collects. */
  lemma {:induction false} ScanUsedMembers<V>(emb: seq<V>, cosine: (V, V) -> real, threshold: real, used: set<nat>, i: nat, hi: nat, x: nat)
    requires i < |emb| && hi <= |emb|
    ensures x in ScanUsed(emb, cosine, threshold, used, i, hi) <==> x in used || x == i || x in Scan(emb, cosine, threshold, used, i, hi)
    decreases hi
  {
    if hi > i + 1 {
      ScanUsedMembers(emb, cosine, threshold, used, i, hi - 1, x);
    }
  }

  /** Indices the inner loop has not reached yet are used only if they were before. */
  lemma {:induction false} ScanUsedAhead<V>(emb: seq<V>, cosine: (V, V) -> real, threshold: real, used: set<nat>, i: nat, hi: nat, x: nat)
    requires i < |emb| && hi <= |emb|
    requires x >= hi && x != i
    ensures x in ScanUsed(emb, cosine, threshold, used, i, hi) <==> x in used
    decreases hi
  {
    if hi > i + 1 {
      ScanUsedAhead(emb, cosine, threshold, used, i, hi - 1, x);
    }
  }

  /** The clusters the outer loop still creates from index `i` on, when the
      indices in `used` are already taken. Each cluster is its seed followed
      by the members found for it, in ascending order. */
  function GreedyFrom<V>(emb: seq<V>, cosine: (V, V) -> real, threshold: real, used: set<nat>, i: nat): (r: seq<seq<nat>>)
    requires i <= |emb|
    ensures Within(r, i, |emb|)
    decreases |emb| - i
  {
    if i == |emb| then []
    else if i in used then GreedyFrom(emb, cosine, threshold, used, i + 1)
    else
      var members := Scan(emb, cosine, threshold, used, i, |emb|);
      var rest := GreedyFrom(emb, cosine, threshold, ScanUsed(emb, cosine, threshold, used, i, |emb|), i + 1);
      WithinCons([i] + members, rest, i, |emb|);
      [[i] + members] + rest
  }

  /** The clusters of the whole batch, as lists of indices, in creation order. */
  function Greedy<V>(emb: seq<V>, cosine: (V, V) -> real, threshold: real): (r: seq<seq<nat>>)
    ensures Within(r, 0, |emb|)
  {
    GreedyFrom(emb, cosine, threshold, {}, 0)
  }

  /** The raw texts of a cluster of indices: `cleanedMap.get(cleanedTexts[idx])`. */
  function Label(c: seq<nat>, keys: seq<string>, cleanedMap: map<string, string>): (r: seq<string>)
    requires InRange(c, 0, |keys|)
    requires forall k :: k in keys ==> k in cleanedMap
    ensures |r| == |c|
  {
    if c == [] then [] else Label(c[..|c| - 1], keys, cleanedMap) + [cleanedMap[keys[c[|c| - 1]]]]
  }

  function LabelAll(cs: seq<seq<nat>>, keys: seq<string>, cleanedMap: map<string, string>): (r: seq<seq<string>>)
    requires Within(cs, 0, |keys|)
    requires forall k :: k in keys ==> k in cleanedMap
    ensures |r| == |cs|
  {
    if cs == [] then [] else LabelAll(cs[..|cs| - 1], keys, cleanedMap) + [Label(cs[|cs| - 1], keys, cleanedMap)]
  }

  lemma {:induction false} LabelAt(c: seq<nat>, keys: seq<string>, cleanedMap: map<string, string>, m: nat)
    requires InRange(c, 0, |keys|) && m < |c|
    requires forall k :: k in keys ==> k in cleanedMap
    ensures Label(c, keys, cleanedMap)[m] == cleanedMap[keys[c[m]]]
  {
    if m < |c| - 1 {
      LabelAt(c[..|c| - 1], keys, cleanedMap, m);
    }
  }

  lemma {:induction false} LabelAllAt(cs: seq<seq<nat>>, keys: seq<string>, cleanedMap: map<string, string>, k: nat)
    requires Within(cs, 0, |keys|) && k < |cs|
    requires forall k :: k in keys ==> k in cleanedMap
    ensures LabelAll(cs, keys, cleanedMap)[k] == Label(cs[k], keys, cleanedMap)
  {
    if k < |cs| - 1 {
      LabelAllAt(cs[..|cs| - 1], keys, cleanedMap, k);
    }
  }

  lemma LabelSnoc(c: seq<nat>, j: nat, keys: seq<string>, cleanedMap: map<string, string>)
    requires InRange(c, 0, |keys|) && j < |keys|
    requires forall k :: k in keys ==> k in cleanedMap
    ensures InRange(c + [j], 0, |keys|)
    ensures Label(c + [j], keys, cleanedMap) == Label(c, keys, cleanedMap) + [cleanedMap[keys[j]]]
  {
    assert (c + [j])[..|c|] == c;
  }

  lemma LabelAllSnoc(cs: seq<seq<nat>>, c: seq<nat>, keys: seq<string>, cleanedMap: map<string, string>)
    requires Within(cs, 0, |keys|) && |c| > 0 && InRange(c, 0, |keys|)
    requires forall k :: k in keys ==> k in cleanedMap
    ensures Within(cs + [c], 0, |keys|)
    ensures LabelAll(cs + [c], keys, cleanedMap) == LabelAll(cs, keys, cleanedMap) + [Label(c, keys, cleanedMap)]
  {
    assert (cs + [c])[..|cs|] == cs;
  }

  /** One turn of the inner loop: index `j` joins exactly when it is unused and similar to the seed. */
  lemma ScanStep<V>(emb: seq<V>, cosine: (V, V) -> real, threshold: real, used: set<nat>, i: nat, j: nat)
    requires i < j < |emb|
    ensures var joins := j !in used && cosine(emb[i], emb[j]) >= threshold;
      && Scan(emb, cosine, threshold, used, i, j + 1)
         == Scan(emb, cosine, threshold, used, i, j) + (if joins then [j] else [])
      && ScanUsed(emb, cosine, threshold, used, i, j + 1)
         == ScanUsed(emb, cosine, threshold, used, i, j) + (if joins then {j} else {})
  {
  }

  /** The inner loop for seed `i`: every later index not yet used whose
      similarity to the seed reaches the threshold joins the group and is
      marked used. `c` is the cluster as indices. */
  method Collect<V>(emb: seq<V>, cosine: (V, V) -> real, threshold: real, keys: seq<string>, cleanedMap: map<string, string>,
                    used0: set<nat>, i: nat)
    returns (group: seq<string>, used: set<nat>, ghost c: seq<nat>)
    requires |keys| == |emb| && i < |emb| && i !in used0
    requires forall k :: k in keys ==> k in cleanedMap
    ensures c == [i] + Scan(emb, cosine, threshold, used0, i, |emb|)
    ensures InRange(c, 0, |keys|)
    ensures used == ScanUsed(emb, cosine, threshold, used0, i, |emb|)
    ensures group == Label(c, keys, cleanedMap)
  {
    c := [i];
    LabelSnoc([], i, keys, cleanedMap);
    group := [cleanedMap[keys[i]]];
    used := used0 + {i};
    for j := i + 1 to |emb|
      invariant c == [i] + Scan(emb, cosine, threshold, used0, i, j)
      invariant InRange(c, 0, |keys|)
      invariant used == ScanUsed(emb, cosine, threshold, used0, i, j)
      invariant group == Label(c, keys, cleanedMap)
    {
      group, used, c := Visit(emb, cosine, threshold, keys, cleanedMap, used0, i, j, group, used, c);
    }
  }

  /** The body of the inner loop for candidate `j`. */
  method Visit<V>(emb: seq<V>, cosine: (V, V) -> real, threshold: real, keys: seq<string>, cleanedMap: map<string, string>,
                  used0: set<nat>, i: nat, j: nat, group: seq<string>, used: set<nat>, ghost c: seq<nat>)
    returns (group': seq<string>, used': set<nat>, ghost c': seq<nat>)
    requires |keys| == |emb| && i < j < |emb|
    requires forall k :: k in keys ==> k in cleanedMap
    requires c == [i] + Scan(emb, cosine, threshold, used0, i, j) && InRange(c, 0, |keys|)
    requires used == ScanUsed(emb, cosine, threshold, used0, i, j)
    requires group == Label(c, keys, cleanedMap)
    ensures c' == [i] + Scan(emb, cosine, threshold, used0, i, j + 1) && InRange(c', 0, |keys|)
    ensures used' == ScanUsed(emb, cosine, threshold, used0, i, j + 1)
    ensures group' == Label(c', keys, cleanedMap)
  {
    ScanUsedAhead(emb, cosine, threshold, used0, i, j, j);
    ScanStep(emb, cosine, threshold, used0, i, j);
    group', used', c' := group, used, c;
    if j in used {
      return;
    }
    var sim := cosine(emb[i], emb[j]);
    if sim >= threshold {
      LabelSnoc(c, j, keys, cleanedMap);
      group' := group + [cleanedMap[keys[j]]];
      used' := used + {j};
      c' := c + [j];
    }
  }

  /** One turn of the outer loop on an unused seed. */
  lemma GreedyStep<V>(emb: seq<V>, cosine: (V, V) -> real, threshold: real, used: set<nat>, i: nat)
    requires i < |emb| && i !in used
    ensures GreedyFrom(emb, cosine, threshold, used, i)
         == [[i] + Scan(emb, cosine, threshold, used, i, |emb|)]
            + GreedyFrom(emb, cosine, threshold, ScanUsed(emb, cosine, threshold, used, i, |emb|), i + 1)
  {
  }

  /** A seed already used is skipped. */
  lemma GreedySkip<V>(emb: seq<V>, cosine: (V, V) -> real, threshold: real, used: set<nat>, i: nat)
    requires i < |emb| && i in used
    ensures GreedyFrom(emb, cosine, threshold, used, i) == GreedyFrom(emb, cosine, threshold, used, i + 1)
  {
  }

  /** Steps 3 and 4 as the source runs them: two nested loops over a `used`
      set; each cluster holds the raw texts of its seed and of its members.
      `clusters[group[0]] = group` keeps one entry per cluster in creation
      order, because no two clusters share their first text (`Representatives`). */
  method Cluster<V>(emb: seq<V>, cosine: (V, V) -> real, threshold: real, keys: seq<string>, cleanedMap: map<string, string>)
    returns (clusters: seq<seq<string>>)
    requires |keys| == |emb|
    requires forall k :: k in keys ==> k in cleanedMap
    ensures clusters == LabelAll(Greedy(emb, cosine, threshold), keys, cleanedMap)
  {
    var used: set<nat> := {};
    clusters := [];
    ghost var done: seq<seq<nat>> := [];
    for i := 0 to |emb|
      invariant done + GreedyFrom(emb, cosine, threshold, used, i) == Greedy(emb, cosine, threshold)
      invariant Within(done, 0, |keys|)
      invariant clusters == LabelAll(done, keys, cleanedMap)
    {
      used, clusters, done := Seed(emb, cosine, threshold, keys, cleanedMap, i, used, clusters, done);
    }
    assert GreedyFrom(emb, cosine, threshold, used, |emb|) == [];
    assert done + [] == done;
  }

  /** The body of the outer loop for seed `i`: a used index is skipped, an
      unused one starts a cluster. `done` is the clusters so far, as indices. */
  method Seed<V>(emb: seq<V>, cosine: (V, V) -> real, threshold: real, keys: seq<string>, cleanedMap: map<string, string>,
                 i: nat, used: set<nat>, clusters: seq<seq<string>>, ghost done: seq<seq<nat>>)
    returns (used': set<nat>, clusters': seq<seq<string>>, ghost done': seq<seq<nat>>)
    requires |keys| == |emb| && i < |emb|
    requires forall k :: k in keys ==> k in cleanedMap
    requires Within(done, 0, |keys|) && clusters == LabelAll(done, keys, cleanedMap)
    ensures Within(done', 0, |keys|) && clusters' == LabelAll(done', keys, cleanedMap)
    ensures done' + GreedyFrom(emb, cosine, threshold, used', i + 1) == done + GreedyFrom(emb, cosine, threshold, used, i)
  {
    if i in used {
      GreedySkip(emb, cosine, threshold, used, i);
      return used, clusters, done;
    }
    var group;
    ghost var c;
    group, used', c := Collect(emb, cosine, threshold, keys, cleanedMap, used, i);
    GreedyStep(emb, cosine, threshold, used, i);
    LabelAllSnoc(done, c, keys, cleanedMap);
    assert (done + [c]) + GreedyFrom(emb, cosine, threshold, used', i + 1) == done + GreedyFrom(emb, cosine, threshold, used, i);
    done' := done + [c];
    clusters' := clusters + [group];
  }

  // ---------------------------------------------------------------------------
  // Properties of the clustering.
  // ---------------------------------------------------------------------------

  /** All indices of all clusters, cluster after cluster. */
  function Flatten(cs: seq<seq<nat>>): seq<nat>
  {
    if cs == [] then [] else cs[0] + Flatten(cs[1..])
  }

  lemma FlattenCons(c: seq<nat>, rest: seq<seq<nat>>)
    ensures Flatten([c] + rest) == c + Flatten(rest)
  {
    assert ([c] + rest)[1..] == rest;
  }

  /** How often `x` occurs in `s`. */
  function Occurrences(s: seq<nat>, x: nat): nat
  {
    if s == [] then 0 else (if s[0] == x then 1 else 0) + Occurrences(s[1..], x)
  }

  /** How often `x` occurs in the clusters `cs` taken together. */
  function OccurrencesIn(cs: seq<seq<nat>>, x: nat): nat
  {
    if cs == [] then 0 else Occurrences(cs[0], x) + OccurrencesIn(cs[1..], x)
  }

  lemma {:induction false} OccurrencesConcat(a: seq<nat>, b: seq<nat>, x: nat)
    ensures Occurrences(a + b, x) == Occurrences(a, x) + Occurrences(b, x)
  {
    if a == [] {
      assert a + b == b;
    } else {
      assert (a + b)[1..] == a[1..] + b;
      OccurrencesConcat(a[1..], b, x);
    }
  }

  /** The count agrees with the multiset of the sequence. */
  lemma {:induction false} OccurrencesMultiset(s: seq<nat>, x: nat)
    ensures Occurrences(s, x) == multiset(s)[x]
  {
    if s != [] {
      assert s == [s[0]] + s[1..];
      OccurrencesMultiset(s[1..], x);
    }
  }

  /** Counting cluster by cluster is counting in the flattened clusters. */
  lemma {:induction false} OccurrencesFlatten(cs: seq<seq<nat>>, x: nat)
    ensures OccurrencesIn(cs, x) == multiset(Flatten(cs))[x]
  {
    if cs != [] {
      OccurrencesFlatten(cs[1..], x);
      OccurrencesMultiset(cs[0], x);
      var head: multiset<nat> := multiset(cs[0]);
      var tail: multiset<nat> := multiset(Flatten(cs[1..]));
      assert multiset(Flatten(cs)) == head + tail;
    }
  }

  /** A strictly increasing sequence holds each of its elements once. */
  lemma {:induction false} IncreasingOnce(s: seq<nat>, x: nat)
    requires forall k, l :: 0 <= k < l < |s| ==> s[k] < s[l]
    ensures Occurrences(s, x) == if x in s then 1 else 0
  {
    if s != [] {
      forall k, l | 0 <= k < l < |s[1..]| ensures s[1..][k] < s[1..][l] {
        assert s[1..][k] == s[k + 1] && s[1..][l] == s[l + 1];
      }
      IncreasingOnce(s[1..], x);
      if x == s[0] {
        forall k | 0 <= k < |s[1..]| ensures s[1..][k] != x {
          assert s[1..][k] == s[k + 1];
        }
      } else {
        assert x in s <==> x in s[1..] by {
          assert s == [s[0]] + s[1..];
        }
      }
    }
  }

  /** The members of one cluster are distinct, later than the seed and fresh. */
  lemma ScanOnce<V>(emb: seq<V>, cosine: (V, V) -> real, threshold: real, used: set<nat>, i: nat, x: nat)
    requires i < |emb|
    ensures var members := Scan(emb, cosine, threshold, used, i, |emb|);
      && Occurrences(members, x) == (if x in members then 1 else 0)
      && (x in members ==> i < x < |emb| && x !in used)
  {
    var members := Scan(emb, cosine, threshold, used, i, |emb|);
    ScanMembers(emb, cosine, threshold, used, i, |emb|);
    IncreasingOnce(members, x);
    if x in members {
      var k :| 0 <= k < |members| && members[k] == x;
    }
  }

  /** One seed of the partition argument: the seed, its members and the
      clusters after it share out the unused indices from `i` on. */
  lemma PartitionTurn<V>(emb: seq<V>, cosine: (V, V) -> real, threshold: real, used: set<nat>, i: nat, x: nat)
    requires i < |emb| && i !in used
    requires var used' := ScanUsed(emb, cosine, threshold, used, i, |emb|);
      OccurrencesIn(GreedyFrom(emb, cosine, threshold, used', i + 1), x)
        == if i + 1 <= x < |emb| && x !in used' then 1 else 0
    ensures OccurrencesIn(GreedyFrom(emb, cosine, threshold, used, i), x)
         == if i <= x < |emb| && x !in used then 1 else 0
  {
    var members := Scan(emb, cosine, threshold, used, i, |emb|);
    var used' := ScanUsed(emb, cosine, threshold, used, i, |emb|);
    var rest := GreedyFrom(emb, cosine, threshold, used', i + 1);
    GreedyStep(emb, cosine, threshold, used, i);
    var c := [i] + members;
    assert ([c] + rest)[1..] == rest;
    assert c[1..] == members;
    ScanOnce(emb, cosine, threshold, used, i, x);
    ScanUsedMembers(emb, cosine, threshold, used, i, |emb|, x);
  }

  /** From seed `i` on, the clusters hold every index that is not yet used
      exactly once, and nothing else. */
  lemma {:induction false} GreedyPartitionFrom<V>(emb: seq<V>, cosine: (V, V) -> real, threshold: real, used: set<nat>, i: nat, x: nat)
    requires i <= |emb|
    ensures OccurrencesIn(GreedyFrom(emb, cosine, threshold, used, i), x)
         == if i <= x < |emb| && x !in used then 1 else 0
    decreases |emb| - i
  {
    if i == |emb| {
    } else if i in used {
      GreedyPartitionFrom(emb, cosine, threshold, used, i + 1, x);
      GreedySkip(emb, cosine, threshold, used, i);
    } else {
      GreedyPartitionFrom(emb, cosine, threshold, ScanUsed(emb, cosine, threshold, used, i, |emb|), i + 1, x);
      PartitionTurn(emb, cosine, threshold, used, i, x);
    }
  }

  /** No index of the clusters `cs` is in `used`. */
  predicate Avoids(cs: seq<seq<nat>>, used: set<nat>)
  {
    forall k, m :: 0 <= k < |cs| && 0 <= m < |cs[k]| ==> cs[k][m] !in used
  }

  /** From seed `i` on, no cluster takes an index that was already used. */
  lemma {:induction false} GreedyFresh<V>(emb: seq<V>, cosine: (V, V) -> real, threshold: real, used: set<nat>, i: nat)
    requires i <= |emb|
    ensures Avoids(GreedyFrom(emb, cosine, threshold, used, i), used)
    decreases |emb| - i
  {
    if i < |emb| {
      if i in used {
        GreedySkip(emb, cosine, threshold, used, i);
        GreedyFresh(emb, cosine, threshold, used, i + 1);
      } else {
        var members := Scan(emb, cosine, threshold, used, i, |emb|);
        var used' := ScanUsed(emb, cosine, threshold, used, i, |emb|);
        GreedyStep(emb, cosine, threshold, used, i);
        ScanSound(emb, cosine, threshold, used, i, |emb|);
        GreedyFresh(emb, cosine, threshold, used', i + 1);
        forall x | x in used ensures x in used' {
          ScanUsedMembers(emb, cosine, threshold, used, i, |emb|, x);
        }
        AvoidsCons([i] + members, GreedyFrom(emb, cosine, threshold, used', i + 1), used, used');
      }
    }
  }

  lemma AvoidsCons(c: seq<nat>, rest: seq<seq<nat>>, used: set<nat>, used': set<nat>)
    requires forall m :: 0 <= m < |c| ==> c[m] !in used
    requires Avoids(rest, used') && used <= used'
    ensures Avoids([c] + rest, used)
  {
    var g := [c] + rest;
    forall k, m | 0 <= k < |g| && 0 <= m < |g[k]| ensures g[k][m] !in used {
      if k > 0 {
        assert g[k] == rest[k - 1];
      }
    }
  }

  /** Each cluster starts with its seed; every later member has a larger index
      than the one before it and is similar to the seed. */
  lemma {:induction false} GreedySeeds<V>(emb: seq<V>, cosine: (V, V) -> real, threshold: real, used: set<nat>, i: nat)
    requires i <= |emb|
    ensures var g := GreedyFrom(emb, cosine, threshold, used, i);
      && (forall k, m :: 0 <= k < |g| && 0 < m < |g[k]| ==> g[k][m - 1] < g[k][m])
      && (forall k, m :: 0 <= k < |g| && 0 < m < |g[k]| ==> Similar(emb, cosine, threshold, g[k][0], g[k][m]))
    decreases |emb| - i
  {
    if i < |emb| {
      if i in used {
        GreedySkip(emb, cosine, threshold, used, i);
        GreedySeeds(emb, cosine, threshold, used, i + 1);
      } else {
        var members := Scan(emb, cosine, threshold, used, i, |emb|);
        var used' := ScanUsed(emb, cosine, threshold, used, i, |emb|);
        var rest := GreedyFrom(emb, cosine, threshold, used', i + 1);
        var g := [[i] + members] + rest;
        GreedyStep(emb, cosine, threshold, used, i);
        ScanMembers(emb, cosine, threshold, used, i, |emb|);
        GreedySeeds(emb, cosine, threshold, used', i + 1);
        forall k, m | 0 <= k < |g| && 0 < m < |g[k]|
          ensures g[k][m - 1] < g[k][m] && Similar(emb, cosine, threshold, g[k][0], g[k][m])
        {
          if k == 0 {
            assert g[k][m] == members[m - 1];
            if m > 1 {
              assert g[k][m - 1] == members[m - 2];
            }
          } else {
            assert g[k] == rest[k - 1];
          }
        }
      }
    }
  }

  /** No index of a cluster is similar to the seed `x` or below it. */
  predicate Unreached<V>(emb: seq<V>, cosine: (V, V) -> real, threshold: real, x: nat, cs: seq<seq<nat>>)
  {
    forall l, m :: 0 <= l < |cs| && 0 <= m < |cs[l]| ==> x < cs[l][m] && !Similar(emb, cosine, threshold, x, cs[l][m])
  }

  /** No index of a cluster is similar to the seed of an earlier cluster or below it. */
  predicate SeedsExclude<V>(emb: seq<V>, cosine: (V, V) -> real, threshold: real, g: seq<seq<nat>>)
  {
    forall k, l, m :: 0 <= k < l < |g| && 0 < |g[k]| && 0 <= m < |g[l]| ==>
      g[k][0] < g[l][m] && !Similar(emb, cosine, threshold, g[k][0], g[l][m])
  }

  lemma SeedsExcludeCons<V>(emb: seq<V>, cosine: (V, V) -> real, threshold: real, c: seq<nat>, rest: seq<seq<nat>>)
    requires |c| > 0 && Unreached(emb, cosine, threshold, c[0], rest) && SeedsExclude(emb, cosine, threshold, rest)
    ensures SeedsExclude(emb, cosine, threshold, [c] + rest)
  {
    var g := [c] + rest;
    forall k, l, m | 0 <= k < l < |g| && 0 < |g[k]| && 0 <= m < |g[l]|
      ensures g[k][0] < g[l][m] && !Similar(emb, cosine, threshold, g[k][0], g[l][m])
    {
      assert g[l] == rest[l - 1];
      if k > 0 {
        assert g[k] == rest[k - 1];
      }
    }
  }

  /** An index that ends up in a later cluster is not similar to the seed of
      any earlier cluster: it would have joined that cluster. */
  lemma {:induction false} GreedyExcluded<V>(emb: seq<V>, cosine: (V, V) -> real, threshold: real, used: set<nat>, i: nat)
    requires i <= |emb|
    ensures SeedsExclude(emb, cosine, threshold, GreedyFrom(emb, cosine, threshold, used, i))
    decreases |emb| - i
  {
    if i < |emb| {
      if i in used {
        GreedySkip(emb, cosine, threshold, used, i);
        GreedyExcluded(emb, cosine, threshold, used, i + 1);
      } else {
        var members := Scan(emb, cosine, threshold, used, i, |emb|);
        var used' := ScanUsed(emb, cosine, threshold, used, i, |emb|);
        GreedyStep(emb, cosine, threshold, used, i);
        GreedyExcluded(emb, cosine, threshold, used', i + 1);
        SeedExcludes(emb, cosine, threshold, used, i);
        SeedsExcludeCons(emb, cosine, threshold, [i] + members, GreedyFrom(emb, cosine, threshold, used', i + 1));
      }
    }
  }

  /** No index of a later cluster is similar to the seed `i` of the cluster
      made before them: a similar one would have joined it. */
  lemma SeedExcludes<V>(emb: seq<V>, cosine: (V, V) -> real, threshold: real, used: set<nat>, i: nat)
    requires i < |emb| && i !in used
    ensures Unreached(emb, cosine, threshold, i,
      GreedyFrom(emb, cosine, threshold, ScanUsed(emb, cosine, threshold, used, i, |emb|), i + 1))
  {
    var members := Scan(emb, cosine, threshold, used, i, |emb|);
    var used' := ScanUsed(emb, cosine, threshold, used, i, |emb|);
    var rest := GreedyFrom(emb, cosine, threshold, used', i + 1);
    ScanComplete(emb, cosine, threshold, used, i, |emb|);
    GreedyFresh(emb, cosine, threshold, used', i + 1);
    forall l, m | 0 <= l < |rest| && 0 <= m < |rest[l]|
      ensures i < rest[l][m] && !Similar(emb, cosine, threshold, i, rest[l][m])
    {
      var y := rest[l][m];
      assert InRange(rest[l], i + 1, |emb|);
      assert y !in used';
      ScanUsedMembers(emb, cosine, threshold, used, i, |emb|, y);
      assert y !in members;
    }
  }

  /** The clustering of a whole batch: every index lands in exactly one
      cluster; a cluster is its seed followed by ascending members, each
      similar to the seed; an index in a later cluster is not similar to the
      seed of any earlier one, and seeds come in ascending order. */
  lemma GreedyClusters<V>(emb: seq<V>, cosine: (V, V) -> real, threshold: real)
    ensures var g := Greedy(emb, cosine, threshold);
      && (forall x: nat :: multiset(Flatten(g))[x] == if x < |emb| then 1 else 0)
      && (forall k :: 0 <= k < |g| ==> |g[k]| > 0)
      && (forall k, m :: 0 <= k < |g| && 0 < m < |g[k]| ==> g[k][m - 1] < g[k][m])
      && (forall k, m :: 0 <= k < |g| && 0 < m < |g[k]| ==> Similar(emb, cosine, threshold, g[k][0], g[k][m]))
      && (forall k, l, m :: 0 <= k < l < |g| && 0 <= m < |g[l]| ==>
            g[k][0] < g[l][m] && !Similar(emb, cosine, threshold, g[k][0], g[l][m]))
  {
    assert Greedy(emb, cosine, threshold) == GreedyFrom(emb, cosine, threshold, {}, 0);
    forall x: nat ensures multiset(Flatten(Greedy(emb, cosine, threshold)))[x] == if x < |emb| then 1 else 0 {
      GreedyPartitionFrom(emb, cosine, threshold, {}, 0, x);
      OccurrencesFlatten(Greedy(emb, cosine, threshold), x);
    }
    GreedySeeds(emb, cosine, threshold, {}, 0);
    GreedyExcluded(emb, cosine, threshold, {}, 0);
  }

  /** Membership is decided against the seed only: with A~B and B~C but not
      A~C, B joins A and C starts a cluster of its own. */
  lemma NotTransitive<V>(emb: seq<V>, cosine: (V, V) -> real, threshold: real)
    requires |emb| == 3
    requires Similar(emb, cosine, threshold, 0, 1) && Similar(emb, cosine, threshold, 1, 2)
    requires !Similar(emb, cosine, threshold, 0, 2)
    ensures Greedy(emb, cosine, threshold) == [[0, 1], [2]]
  {
    assert Scan(emb, cosine, threshold, {}, 0, 3) == [1];
    assert ScanUsed(emb, cosine, threshold, {}, 0, 3) == {0, 1};
    GreedyStep(emb, cosine, threshold, {}, 0);
    assert [0] + Scan(emb, cosine, threshold, {}, 0, 3) == [0, 1];
    assert GreedyFrom(emb, cosine, threshold, {}, 0) == [[0, 1]] + GreedyFrom(emb, cosine, threshold, {0, 1}, 1);
    GreedySkip(emb, cosine, threshold, {0, 1}, 1);
    assert Scan(emb, cosine, threshold, {0, 1}, 2, 3) == [];
    GreedyStep(emb, cosine, threshold, {0, 1}, 2);
    assert [2] + Scan(emb, cosine, threshold, {0, 1}, 2, 3) == [2];
    assert GreedyFrom(emb, cosine, threshold, ScanUsed(emb, cosine, threshold, {0, 1}, 2, 3), 3) == [];
    assert GreedyFrom(emb, cosine, threshold, {0, 1}, 2) == [[2]];
  }

  /** A similarity exactly at the threshold is enough to join. */
  lemma AtThreshold<V>(emb: seq<V>, cosine: (V, V) -> real, threshold: real)
    requires |emb| == 2 && cosine(emb[0], emb[1]) == threshold
    ensures Greedy(emb, cosine, threshold) == [[0, 1]]
  {
    assert Scan(emb, cosine, threshold, {}, 0, 2) == [1];
    assert ScanUsed(emb, cosine, threshold, {}, 0, 2) == {0, 1};
    GreedyStep(emb, cosine, threshold, {}, 0);
    assert [0] + Scan(emb, cosine, threshold, {}, 0, 2) == [0, 1];
    assert GreedyFrom(emb, cosine, threshold, {}, 0) == [[0, 1]] + GreedyFrom(emb, cosine, threshold, {0, 1}, 1);
    GreedySkip(emb, cosine, threshold, {0, 1}, 1);
    assert GreedyFrom(emb, cosine, threshold, {0, 1}, 2) == [];
  }

  lemma LabelAllNonEmpty(cs: seq<seq<nat>>, keys: seq<string>, cleanedMap: map<string, string>)
    requires Within(cs, 0, |keys|)
    requires forall k :: k in keys ==> k in cleanedMap
    ensures forall k :: 0 <= k < |cs| ==> LabelAll(cs, keys, cleanedMap)[k] != []
  {
    forall k | 0 <= k < |cs| ensures LabelAll(cs, keys, cleanedMap)[k] != [] {
      LabelAllAt(cs, keys, cleanedMap, k);
    }
  }

  // ---------------------------------------------------------------------------
  // Steps 5 and 6: aggregate, sort, truncate.
  // ---------------------------------------------------------------------------

  /** `frequencyMap.get(cleanText(q)) || 0`. */
  function CountOf(frequencyMap: map<string, nat>, clean: string -> string, q: string): nat
  {
    if clean(q) in frequencyMap then frequencyMap[clean(q)] else 0
  }

  /** One entry of `Object.entries(clusters).map(...)`: the key is the group's
      first text and the count sums the frequencies of the group's texts. */
  function MakeGroup(group: seq<string>, frequencyMap: map<string, nat>, clean: string -> string): Group
    requires group != []
  {
    Group(group[0], group, SumOf(group, q => CountOf(frequencyMap, clean, q)))
  }

  function MakeGroups(clusters: seq<seq<string>>, frequencyMap: map<string, nat>, clean: string -> string): (r: seq<Group>)
    requires forall k :: 0 <= k < |clusters| ==> clusters[k] != []
    ensures |r| == |clusters|
  {
    seq(|clusters|, k requires 0 <= k < |clusters| => MakeGroup(clusters[k], frequencyMap, clean))
  }

  /** The position `slice` resolves a relative index `n` to, in a sequence of length `len`. */
  function SliceIndex(n: int, len: nat): (r: nat)
    ensures r <= len
  {
    if n < 0 then Max(len + n, 0) else Min(n, len)
  }

  /** `s.slice(start, end)`. */
  function Slice<T>(s: seq<T>, start: int, end: int): seq<T>
  {
    var from := SliceIndex(start, |s|);
    var to := SliceIndex(end, |s|);
    if from < to then s[from..to] else []
  }

  /** `if (maxGroups) return result.slice(0, maxGroups)`: an absent or zero
      limit keeps everything, a positive one keeps that many, a negative one
      drops that many from the end. */
  function Truncate<T>(s: seq<T>, maxGroups: Option<int>): (r: seq<T>)
    ensures |r| <= |s| && r == s[..|r|]
    ensures maxGroups == None || maxGroups == Some(0) ==> r == s
    ensures maxGroups.Some? && maxGroups.value > 0 ==> |r| == Min(maxGroups.value, |s|)
    ensures maxGroups.Some? && maxGroups.value < 0 ==> |r| == Max(0, |s| + maxGroups.value)
  {
    if maxGroups.Some? && maxGroups.value != 0 then Slice(s, 0, maxGroups.value) else s
  }

  /** The embedding provider returns one vector per key of the batch. */
  predicate EmbedsAll<V>(texts: seq<string>, clean: string -> string, embed: seq<string> -> seq<V>)
  {
    Keys(texts, clean) != [] ==> |embed(Keys(texts, clean))| == |Keys(texts, clean)|
  }

  /** The clusters of the batch as index lists, in creation order. */
  function IndexClusters<V>(texts: seq<string>, clean: string -> string, embed: seq<string> -> seq<V>,
                            cosine: (V, V) -> real, threshold: real): (r: seq<seq<nat>>)
    requires EmbedsAll(texts, clean, embed)
    ensures Within(r, 0, |Keys(texts, clean)|)
  {
    var keys := Keys(texts, clean);
    if keys == [] then [] else Greedy(embed(keys), cosine, threshold)
  }

  /** The groups before sorting, in the order their clusters were created. */
  function Created<V>(texts: seq<string>, clean: string -> string, embed: seq<string> -> seq<V>,
                      cosine: (V, V) -> real, threshold: real): seq<Group>
    requires EmbedsAll(texts, clean, embed)
  {
    var keys := Keys(texts, clean);
    var clusters := LabelAll(IndexClusters(texts, clean, embed, cosine, threshold), keys, CleanedMapOf(texts, clean));
    LabelAllNonEmpty(IndexClusters(texts, clean, embed, cosine, threshold), keys, CleanedMapOf(texts, clean));
    MakeGroups(clusters, FrequencyMapOf(texts, clean), clean)
  }

  /** The result of `groupSimilarTexts`. */
  function Grouping<V>(texts: seq<string>, clean: string -> string, embed: seq<string> -> seq<V>,
                       cosine: (V, V) -> real, threshold: real, maxGroups: Option<int>): seq<Group>
    requires EmbedsAll(texts, clean, embed)
  {
    Truncate(SortDesc(Created(texts, clean, embed, cosine, threshold), TotalCountOf), maxGroups)
  }

  const DefaultThreshold: real := 0.85

  /** `groupSimilarTexts(texts, threshold = 0.85, maxGroups?)`. `requests`
      lists the batches sent to the embedding provider. */
  method GroupSimilarTexts<V>(texts: seq<string>, clean: string -> string, embed: seq<string> -> seq<V>,
                              cosine: (V, V) -> real, threshold: Option<real>, maxGroups: Option<int>)
    returns (result: seq<Group>, requests: seq<seq<string>>)
    requires EmbedsAll(texts, clean, embed)
    ensures result == Grouping(texts, clean, embed, cosine, if threshold.Some? then threshold.value else DefaultThreshold, maxGroups)
    ensures requests == if Keys(texts, clean) == [] then [] else [Keys(texts, clean)]
  {
    var t := if threshold.Some? then threshold.value else DefaultThreshold;
    var keys, cleanedMap, frequencyMap := Normalize(texts, clean);
    if |keys| == 0 {
      return [], [];
    }
    var embeddings := embed(keys);
    requests := [keys];
    var clusters := Cluster(embeddings, cosine, t, keys, cleanedMap);
    LabelAllNonEmpty(Greedy(embeddings, cosine, t), keys, cleanedMap);
    result := MakeGroups(clusters, frequencyMap, clean);
    result := SortDesc(result, TotalCountOf);
    result := Truncate(result, maxGroups);
  }

  // ---------------------------------------------------------------------------
  // Properties of the result.
  // ---------------------------------------------------------------------------

  /** The frequency of the key at position `idx` of the batch. */
  function KeyWeight(texts: seq<string>, clean: string -> string, idx: nat): nat
  {
    var keys := Keys(texts, clean);
    if idx < |keys| then Frequency(texts, clean, keys[idx]) else 0
  }

  /** The stored raw text of a key cleans back to that key. */
  lemma LastRawCleans(texts: seq<string>, clean: string -> string, c: string)
    requires c in Keys(texts, clean)
    ensures clean(LastRaw(texts, clean, c)) == c
  {
    LastRawIsLast(texts, clean, c);
  }

  /** When every input cleans to the empty string there are no keys: nothing
      is embedded and the result is empty. */
  lemma NothingToGroup<V>(texts: seq<string>, clean: string -> string, embed: seq<string> -> seq<V>,
                          cosine: (V, V) -> real, threshold: real, maxGroups: Option<int>)
    requires forall i :: 0 <= i < |texts| ==> clean(texts[i]) == ""
    ensures Keys(texts, clean) == []
    ensures EmbedsAll(texts, clean, embed)
    ensures Grouping(texts, clean, embed, cosine, threshold, maxGroups) == []
  {
    KeysEmpty(texts, clean);
  }

  /** Each group lists the stored raw texts of its cluster's keys, seed first,
      and is named after the seed's text. */
  lemma CreatedTexts<V>(texts: seq<string>, clean: string -> string, embed: seq<string> -> seq<V>,
                        cosine: (V, V) -> real, threshold: real)
    requires EmbedsAll(texts, clean, embed)
    ensures var g := IndexClusters(texts, clean, embed, cosine, threshold);
            var r := Created(texts, clean, embed, cosine, threshold);
      && |r| == |g|
      && (forall k :: 0 <= k < |r| ==> |r[k].similarQuestions| == |g[k]| > 0)
      && (forall k :: 0 <= k < |r| ==> r[k].representative == r[k].similarQuestions[0])
      && (forall k, m :: 0 <= k < |r| && 0 <= m < |g[k]| ==>
            r[k].similarQuestions[m] == LastRaw(texts, clean, Keys(texts, clean)[g[k][m]]))
  {
    var keys := Keys(texts, clean);
    var cm := CleanedMapOf(texts, clean);
    var g := IndexClusters(texts, clean, embed, cosine, threshold);
    var r := Created(texts, clean, embed, cosine, threshold);
    forall k | 0 <= k < |r|
      ensures |r[k].similarQuestions| == |g[k]| > 0
      ensures r[k].representative == r[k].similarQuestions[0]
      ensures forall m :: 0 <= m < |g[k]| ==> r[k].similarQuestions[m] == LastRaw(texts, clean, keys[g[k][m]])
    {
      LabelAllAt(g, keys, cm, k);
      forall m | 0 <= m < |g[k]| ensures r[k].similarQuestions[m] == LastRaw(texts, clean, keys[g[k][m]]) {
        LabelAt(g[k], keys, cm, m);
      }
    }
  }

  /** The count of a group is the sum of the frequencies of its cluster's keys. */
  lemma CreatedTotals<V>(texts: seq<string>, clean: string -> string, embed: seq<string> -> seq<V>,
                         cosine: (V, V) -> real, threshold: real)
    requires EmbedsAll(texts, clean, embed)
    ensures var g := IndexClusters(texts, clean, embed, cosine, threshold);
            var r := Created(texts, clean, embed, cosine, threshold);
      && |r| == |g|
      && forall k :: 0 <= k < |r| ==> r[k].totalCount == SumOf(g[k], idx => KeyWeight(texts, clean, idx))
  {
    var keys := Keys(texts, clean);
    var fm := FrequencyMapOf(texts, clean);
    var g := IndexClusters(texts, clean, embed, cosine, threshold);
    var r := Created(texts, clean, embed, cosine, threshold);
    CreatedTexts(texts, clean, embed, cosine, threshold);
    forall k | 0 <= k < |r| ensures r[k].totalCount == SumOf(g[k], idx => KeyWeight(texts, clean, idx)) {
      var qs := r[k].similarQuestions;
      forall m | 0 <= m < |qs| ensures CountOf(fm, clean, qs[m]) == KeyWeight(texts, clean, g[k][m]) {
        assert InRange(g[k], 0, |keys|);
        LastRawCleans(texts, clean, keys[g[k][m]]);
      }
      SumOfPointwise(qs, q => CountOf(fm, clean, q), g[k], idx => KeyWeight(texts, clean, idx));
    }
  }

  /** No two groups share a representative, so `clusters[group[0]] = group`
      never overwrites an earlier cluster. */
  lemma Representatives<V>(texts: seq<string>, clean: string -> string, embed: seq<string> -> seq<V>,
                           cosine: (V, V) -> real, threshold: real)
    requires EmbedsAll(texts, clean, embed)
    ensures var r := Created(texts, clean, embed, cosine, threshold);
      forall k, l :: 0 <= k < l < |r| ==> r[k].representative != r[l].representative
  {
    var keys := Keys(texts, clean);
    var g := IndexClusters(texts, clean, embed, cosine, threshold);
    var r := Created(texts, clean, embed, cosine, threshold);
    CreatedTexts(texts, clean, embed, cosine, threshold);
    if keys != [] {
      GreedyClusters(embed(keys), cosine, threshold);
      KeysDistinct(texts, clean);
      forall k, l | 0 <= k < l < |r| ensures r[k].representative != r[l].representative {
        assert g[k][0] < g[l][0];
        assert InRange(g[k], 0, |keys|) && InRange(g[l], 0, |keys|);
        LastRawCleans(texts, clean, keys[g[k][0]]);
        LastRawCleans(texts, clean, keys[g[l][0]]);
      }
    }
  }

  /** The weights of all clusters' indices, cluster after cluster. */
  function SumOverClusters(cs: seq<seq<nat>>, w: nat -> int): int
  {
    if cs == [] then 0 else SumOf(cs[0], w) + SumOverClusters(cs[1..], w)
  }

  lemma {:induction false} SumOverClustersFlatten(cs: seq<seq<nat>>, w: nat -> int)
    ensures SumOverClusters(cs, w) == SumOf(Flatten(cs), w)
  {
    if cs != [] {
      SumOverClustersFlatten(cs[1..], w);
      SumOfConcat(cs[0], Flatten(cs[1..]), w);
    }
  }

  /** Groups whose counts are the weights of their clusters add up to the
      weight of all clusters. */
  lemma {:induction false} SumOfGroups(r: seq<Group>, g: seq<seq<nat>>, w: nat -> int)
    requires |r| == |g|
    requires forall k :: 0 <= k < |r| ==> r[k].totalCount == SumOf(g[k], w)
    ensures SumOf(r, TotalCountOf) == SumOverClusters(g, w)
  {
    if r != [] {
      assert r[0].totalCount == SumOf(g[0], w);
      forall k | 0 <= k < |r[1..]| ensures r[1..][k].totalCount == SumOf(g[1..][k], w) {
        assert r[1..][k] == r[k + 1] && g[1..][k] == g[k + 1];
      }
      SumOfGroups(r[1..], g[1..], w);
    }
  }

  /** The indices `lo .. hi - 1` in ascending order. */
  function Indices(lo: nat, hi: nat): seq<nat>
    decreases hi - lo
  {
    if lo >= hi then [] else [lo] + Indices(lo + 1, hi)
  }

  lemma {:induction false} IndicesOnce(lo: nat, hi: nat, x: nat)
    ensures Occurrences(Indices(lo, hi), x) == if lo <= x < hi then 1 else 0
    decreases hi - lo
  {
    if lo < hi {
      var s := Indices(lo, hi);
      assert s[1..] == Indices(lo + 1, hi);
      IndicesOnce(lo + 1, hi, x);
    }
  }

  /** Weighing the key positions `lo ..` by their frequencies sums the
      frequencies of those keys. */
  lemma {:induction false} IndicesWeights(texts: seq<string>, clean: string -> string, w: nat -> int, lo: nat)
    requires lo <= |Keys(texts, clean)|
    requires forall idx: nat :: w(idx) == KeyWeight(texts, clean, idx)
    ensures SumOf(Indices(lo, |Keys(texts, clean)|), w) == SumFrequencies(Keys(texts, clean)[lo..], texts, clean)
    decreases |Keys(texts, clean)| - lo
  {
    var keys := Keys(texts, clean);
    if lo < |keys| {
      IndicesWeights(texts, clean, w, lo + 1);
      assert keys[lo..][1..] == keys[lo + 1..];
      assert Indices(lo, |keys|)[1..] == Indices(lo + 1, |keys|);
    }
  }

  /** Every key position of the batch lands in exactly one cluster. */
  lemma ClustersCoverKeys<V>(texts: seq<string>, clean: string -> string, embed: seq<string> -> seq<V>,
                             cosine: (V, V) -> real, threshold: real)
    requires EmbedsAll(texts, clean, embed)
    ensures multiset(Flatten(IndexClusters(texts, clean, embed, cosine, threshold)))
         == multiset(Indices(0, |Keys(texts, clean)|))
  {
    var keys := Keys(texts, clean);
    var g := IndexClusters(texts, clean, embed, cosine, threshold);
    var all := Indices(0, |keys|);
    var inClusters: multiset<nat> := multiset(Flatten(g));
    var inAll: multiset<nat> := multiset(all);
    forall x: nat ensures inClusters[x] == inAll[x] {
      IndicesOnce(0, |keys|, x);
      OccurrencesMultiset(all, x);
      if keys != [] {
        GreedyClusters(embed(keys), cosine, threshold);
      }
    }
    assert inClusters == inAll;
  }

  /** Count conservation: the counts of the groups add up to the number of
      inputs whose cleaned form is non-empty. */
  lemma CountsConserved<V>(texts: seq<string>, clean: string -> string, embed: seq<string> -> seq<V>,
                           cosine: (V, V) -> real, threshold: real)
    requires EmbedsAll(texts, clean, embed)
    ensures SumOf(Created(texts, clean, embed, cosine, threshold), TotalCountOf) == NonEmptyCount(texts, clean)
  {
    var keys := Keys(texts, clean);
    var g := IndexClusters(texts, clean, embed, cosine, threshold);
    var r := Created(texts, clean, embed, cosine, threshold);
    var w: nat -> int := (idx: nat) => KeyWeight(texts, clean, idx);
    CreatedTotals(texts, clean, embed, cosine, threshold);
    SumOfGroups(r, g, w);
    SumOverClustersFlatten(g, w);
    ClustersCoverKeys(texts, clean, embed, cosine, threshold);
    SumOfPermutation(Flatten(g), Indices(0, |keys|), w);
    IndicesWeights(texts, clean, w, 0);
    assert keys[0..] == keys;
    FrequenciesAddUp(texts, clean);
  }

  /** The result is sorted by count, largest first; it is a prefix of the
      sorted groups, which are the created groups rearranged, and no group
      left out by the limit has a larger count than one kept. */
  lemma GroupingOrdered<V>(texts: seq<string>, clean: string -> string, embed: seq<string> -> seq<V>,
                           cosine: (V, V) -> real, threshold: real, maxGroups: Option<int>)
    requires EmbedsAll(texts, clean, embed)
    ensures var created := Created(texts, clean, embed, cosine, threshold);
            var sorted := SortDesc(created, TotalCountOf);
            var r := Grouping(texts, clean, embed, cosine, threshold, maxGroups);
      && NonIncreasing(r, TotalCountOf)
      && multiset(sorted) == multiset(created)
      && |r| <= |sorted| && r == sorted[..|r|]
      && (forall i, j :: 0 <= i < |r| <= j < |sorted| ==> r[i].totalCount >= sorted[j].totalCount)
  {
    var created := Created(texts, clean, embed, cosine, threshold);
    var sorted := SortDesc(created, TotalCountOf);
    var r := Grouping(texts, clean, embed, cosine, threshold, maxGroups);
    SortDescOrdered(created, TotalCountOf);
    TakeLargest(sorted, TotalCountOf, |r|);
  }

  /** Without a limit every group is returned and the counts still add up to
      the number of non-empty inputs. */
  lemma GroupingUnlimited<V>(texts: seq<string>, clean: string -> string, embed: seq<string> -> seq<V>,
                             cosine: (V, V) -> real, threshold: real, maxGroups: Option<int>)
    requires EmbedsAll(texts, clean, embed)
    requires maxGroups == None || maxGroups == Some(0)
    ensures var r := Grouping(texts, clean, embed, cosine, threshold, maxGroups);
      && multiset(r) == multiset(Created(texts, clean, embed, cosine, threshold))
      && SumOf(r, TotalCountOf) == NonEmptyCount(texts, clean)
  {
    var created := Created(texts, clean, embed, cosine, threshold);
    SortDescOrdered(created, TotalCountOf);
    SumOfPermutation(SortDesc(created, TotalCountOf), created, TotalCountOf);
    CountsConserved(texts, clean, embed, cosine, threshold);
  }

  /** Groups with equal counts keep the order in which their clusters were
      created (the sort is stable); a limit keeps a prefix of each such run. */
  lemma GroupingStable<V>(texts: seq<string>, clean: string -> string, embed: seq<string> -> seq<V>,
                          cosine: (V, V) -> real, threshold: real, maxGroups: Option<int>, v: int)
    requires EmbedsAll(texts, clean, embed)
    ensures var tied := WithKey(Created(texts, clean, embed, cosine, threshold), TotalCountOf, v);
            var kept := WithKey(Grouping(texts, clean, embed, cosine, threshold, maxGroups), TotalCountOf, v);
      |kept| <= |tied| && kept == tied[..|kept|]
  {
    var created := Created(texts, clean, embed, cosine, threshold);
    var sorted := SortDesc(created, TotalCountOf);
    var r := Grouping(texts, clean, embed, cosine, threshold, maxGroups);
    SortDescStable(created, TotalCountOf, v);
    WithKeyPrefix(sorted, TotalCountOf, v, |r|);
  }
}
