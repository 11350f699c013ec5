/**
 * `topicReplace` on topics with any number of placeholders: a topic written as plain
 * texts and placeholders comes back with every placeholder replaced.
 */
module TopicPlaceholders {
  import opened Wrappers
  import opened JsValues
  import opened TopicReplace

  /**
   * A key that is digits with at most one comma after the first digit ("1", "2,",
   * "1,3"). In the pattern `\${key}` such a key forms a repetition count on `$`
   * rather than literal text.
   */
  predicate CountKey(key: string)
  {
    key != [] && '0' <= key[0] <= '9'
    && (forall i :: 0 <= i < |key| ==> '0' <= key[i] <= '9' || key[i] == ',')
    && (forall i, j :: 0 <= i < j < |key| && key[i] == ',' ==> key[j] != ',')
  }

  /** A key a placeholder can carry: not empty, without '}' and '$', and not a repetition count. */
  predicate PlainKey(key: string)
  {
    key != [] && '}' !in key && '$' !in key && !CountKey(key)
  }

  /** A topic `a0` followed by placeholders, each with the plain text after it: "a0${k1}a1${k2}a2...". */
  function Template(a0: string, parts: seq<(string, string)>): string
    decreases |parts|
  {
    if parts == [] then a0 else a0 + Placeholder(parts[0].0) + Template(parts[0].1, parts[1..])
  }

  /** The same texts with each placeholder's replacement in its place. */
  function Filled(a0: string, parts: seq<(string, string)>, lower: map<string, Value>): string
    decreases |parts|
  {
    if parts == [] then a0
    else a0 + Replacement(lower, Lower(parts[0].0)) + Filled(parts[0].1, parts[1..], lower)
  }

  /** The placeholder of `k`, or its replacement once `k` is in `done`. */
  function Seg(k: string, done: set<string>, lower: map<string, Value>): string
  {
    if k in done then Replacement(lower, Lower(k)) else Placeholder(k)
  }

  /** The template part way through: the placeholders of keys in `done` already replaced. */
  function Partly(a0: string, parts: seq<(string, string)>, done: set<string>, lower: map<string, Value>): string
    decreases |parts|
  {
    if parts == [] then a0
    else a0 + Seg(parts[0].0, done, lower) + Partly(parts[0].1, parts[1..], done, lower)
  }

  /** The texts are free of '$', the keys plain, and every replacement free of '$'. */
  predicate WellSplit(a0: string, parts: seq<(string, string)>, lower: map<string, Value>)
  {
    '$' !in a0
    && forall i :: 0 <= i < |parts| ==>
         PlainKey(parts[i].0) && '$' !in parts[i].1 && '$' !in Replacement(lower, Lower(parts[i].0))
  }

  /** The texts after the first placeholder are split as well. */
  lemma WellSplitTail(a0: string, parts: seq<(string, string)>, lower: map<string, Value>)
    requires WellSplit(a0, parts, lower) && parts != []
    ensures PlainKey(parts[0].0) && '$' !in Replacement(lower, Lower(parts[0].0))
    ensures WellSplit(parts[0].1, parts[1..], lower)
  {
    assert forall i :: 0 <= i < |parts| - 1 ==> parts[1..][i] == parts[i + 1];
  }

  /** The keys of the parts, in order. */
  function PartKeys(parts: seq<(string, string)>): (r: seq<string>)
    ensures |r| == |parts| && forall i :: 0 <= i < |parts| ==> r[i] == parts[i].0
  {
    seq(|parts|, i requires 0 <= i < |parts| => parts[i].0)
  }

  /** The keys of a list, as a set. */
  function KeySet(keys: seq<string>): set<string>
  {
    set k | k in keys
  }

  /** Concatenation is associative. */
  lemma Assoc(a: string, b: string, c: string)
    ensures a + b + c == a + (b + c)
  {
    assert forall i :: 0 <= i < |a + b + c| ==> (a + b + c)[i] == (a + (b + c))[i];
  }

  /** Text without the first character of the pattern is copied by a global replace. */
  lemma {:induction false} ReplaceAllSkip(a: string, b: string, pat: string, rep: string)
    requires pat != [] && forall i :: 0 <= i < |a| ==> a[i] != pat[0]
    ensures ReplaceAll(a + b, pat, rep) == a + ReplaceAll(b, pat, rep)
    decreases |a|
  {
    if a == [] {
      assert a + b == b;
    } else {
      var t := a + b;
      assert |pat| > |t| || pat[0] != t[..|pat|][0];
      assert t[1..] == a[1..] + b;
      ReplaceAllSkip(a[1..], b, pat, rep);
    }
  }

  /** The placeholder of one plain key does not start the placeholder of another. */
  lemma PlaceholderMismatch(k: string, k0: string, b: string)
    requires PlainKey(k) && PlainKey(k0) && k != k0
    ensures !(Placeholder(k) <= Placeholder(k0) + b)
  {
    var pat, t := Placeholder(k), Placeholder(k0) + b;
    var n, n0 := |k|, |k0|;
    var i: nat;
    if n < n0 {
      i := 2 + n;
      assert pat[i] == '}' && t[i] == k0[n];
    } else if n > n0 {
      i := 2 + n0;
      assert pat[i] == k[n0] && t[i] == '}';
    } else {
      assert !(forall j :: 0 <= j < n ==> k[j] == k0[j]);
      var j :| 0 <= j < n && k[j] != k0[j];
      i := 2 + j;
      assert pat[i] == k[j] && t[i] == k0[j];
    }
    assert i < |pat| && i < |t| && pat[i] != t[i];
  }

  /** A placeholder holds '$' only at its start. */
  lemma PlaceholderTail(k: string)
    requires PlainKey(k)
    ensures Placeholder(k)[0] == '$' && '$' !in Placeholder(k)[1..]
  {
    assert Placeholder(k)[1..] == "{" + k + "}";
  }

  /** A global replace of a placeholder copies text without '$'. */
  lemma SkipPlain(a: string, b: string, k: string, rep: string)
    requires '$' !in a && PlainKey(k)
    ensures ReplaceAll(a + b, Placeholder(k), rep) == a + ReplaceAll(b, Placeholder(k), rep)
  {
    PlaceholderTail(k);
    ReplaceAllSkip(a, b, Placeholder(k), rep);
  }

  /** A global replace of the placeholder of `k` copies the placeholder of another key. */
  lemma SkipOther(k0: string, b: string, k: string, rep: string)
    requires PlainKey(k0) && PlainKey(k) && k0 != k
    ensures ReplaceAll(Placeholder(k0) + b, Placeholder(k), rep) == Placeholder(k0) + ReplaceAll(b, Placeholder(k), rep)
  {
    var seg, pat := Placeholder(k0), Placeholder(k);
    var t := seg + b;
    PlaceholderTail(k0);
    PlaceholderMismatch(k, k0, b);
    assert t != [] && !(pat <= t);
    assert ReplaceAll(t, pat, rep) == [t[0]] + ReplaceAll(t[1..], pat, rep);
    assert t[0] == seg[0] && t[1..] == seg[1..] + b;
    SkipPlain(seg[1..], b, k, rep);
    assert [seg[0]] + (seg[1..] + ReplaceAll(b, pat, rep)) == seg + ReplaceAll(b, pat, rep);
  }

  /** A global replace of the placeholder of `k` replaces a segment exactly when it is that placeholder. */
  lemma SegReplace(k0: string, rest: string, done: set<string>, lower: map<string, Value>, k: string)
    requires PlainKey(k0) && '$' !in Replacement(lower, Lower(k0)) && PlainKey(k)
    ensures ReplaceAll(Seg(k0, done, lower) + rest, Placeholder(k), Replacement(lower, Lower(k)))
      == Seg(k0, done + {k}, lower) + ReplaceAll(rest, Placeholder(k), Replacement(lower, Lower(k)))
  {
    var rep := Replacement(lower, Lower(k));
    if k0 in done {
      SkipPlain(Seg(k0, done, lower), rest, k, rep);
    } else if k0 == k {
      PlaceholderTail(k);
      ReplaceAllSplit([], Placeholder(k), rest, rep);
      assert [] + Placeholder(k) + rest == Placeholder(k) + rest;
    } else {
      SkipOther(k0, rest, k, rep);
    }
  }

  /** A global replace of the placeholder of `k` passes one plain text and one segment. */
  lemma SegStep(a0: string, k0: string, rest: string, done: set<string>, lower: map<string, Value>, k: string)
    requires '$' !in a0 && PlainKey(k0) && '$' !in Replacement(lower, Lower(k0)) && PlainKey(k)
    ensures ReplaceAll(a0 + Seg(k0, done, lower) + rest, Placeholder(k), Replacement(lower, Lower(k)))
      == a0 + Seg(k0, done + {k}, lower) + ReplaceAll(rest, Placeholder(k), Replacement(lower, Lower(k)))
  {
    var seg := Seg(k0, done, lower);
    var rep := Replacement(lower, Lower(k));
    Assoc(a0, seg, rest);
    Assoc(a0, Seg(k0, done + {k}, lower), ReplaceAll(rest, Placeholder(k), rep));
    SkipPlain(a0, seg + rest, k, rep);
    SegReplace(k0, rest, done, lower, k);
  }

  /**
   * Replacing every occurrence of the placeholder of `k` in the partly filled template
   * replaces exactly the placeholders of `k`.
   */
  lemma {:induction false} ReplaceStep(a0: string, parts: seq<(string, string)>, done: set<string>,
                                       lower: map<string, Value>, k: string)
    requires WellSplit(a0, parts, lower) && PlainKey(k) && '$' !in Replacement(lower, Lower(k))
    ensures ReplaceAll(Partly(a0, parts, done, lower), Placeholder(k), Replacement(lower, Lower(k)))
      == Partly(a0, parts, done + {k}, lower)
    decreases |parts|
  {
    if parts == [] {
      PlaceholderTail(k);
      ReplaceAllAbsent(a0, Placeholder(k), Replacement(lower, Lower(k)));
    } else {
      WellSplitTail(a0, parts, lower);
      ReplaceStep(parts[0].1, parts[1..], done, lower, k);
      SegStep(a0, parts[0].0, Partly(parts[0].1, parts[1..], done, lower), done, lower, k);
    }
  }

  /** Replacing the keys one after the other fills in each of them. */
  lemma {:induction false} ApplyKeysFills(a0: string, parts: seq<(string, string)>, done: set<string>,
                                          lower: map<string, Value>, keys: seq<string>)
    requires WellSplit(a0, parts, lower)
    requires forall j :: 0 <= j < |keys| ==> PlainKey(keys[j]) && '$' !in Replacement(lower, Lower(keys[j]))
    ensures ApplyKeys(Partly(a0, parts, done, lower), keys, lower)
      == Partly(a0, parts, done + KeySet(keys), lower)
    decreases |keys|
  {
    if keys == [] {
      assert done + KeySet(keys) == done;
    } else {
      ReplaceStep(a0, parts, done, lower, keys[0]);
      ApplyKeysFills(a0, parts, done + {keys[0]}, lower, keys[1..]);
      assert done + {keys[0]} + (KeySet(keys[1..]))
        == done + KeySet(keys) by {
        forall x | x in KeySet(keys)
          ensures x == keys[0] || x in KeySet(keys[1..])
        {
          if x != keys[0] {
            assert x in keys[1..];
          }
        }
      }
    }
  }

  /** With nothing replaced yet the partly filled template is the template. */
  lemma {:induction false} PartlyNone(a0: string, parts: seq<(string, string)>, lower: map<string, Value>)
    ensures Partly(a0, parts, {}, lower) == Template(a0, parts)
    decreases |parts|
  {
    if parts != [] {
      PartlyNone(parts[0].1, parts[1..], lower);
    }
  }

  /** With every key replaced the partly filled template is the filled one. */
  lemma {:induction false} PartlyAll(a0: string, parts: seq<(string, string)>, done: set<string>, lower: map<string, Value>)
    requires forall i :: 0 <= i < |parts| ==> parts[i].0 in done
    ensures Partly(a0, parts, done, lower) == Filled(a0, parts, lower)
    decreases |parts|
  {
    if parts != [] {
      assert forall i :: 0 <= i < |parts| - 1 ==> parts[1..][i] == parts[i + 1];
      PartlyAll(parts[0].1, parts[1..], done, lower);
    }
  }

  /** At a placeholder the search takes its key and resumes after it. */
  lemma KeysAtPlaceholder(t: string, p: nat, k: string)
    requires PlainKey(k) && p + |Placeholder(k)| <= |t| && t[p..p + |Placeholder(k)|] == Placeholder(k)
    ensures Keys(t, p) == [k] + Keys(t, p + |Placeholder(k)|)
  {
    var ph := Placeholder(k);
    var u := t[p..p + |ph|];
    var q := p + 2 + |k|;
    assert ph[0] == '$' && ph[1] == '{' && ph[2 + |k|] == '}';
    assert forall i :: 0 <= i < |k| ==> ph[2 + i] == k[i];
    assert t[p] == u[0] && t[p + 1] == u[1] && t[q] == u[2 + |k|];
    assert forall j :: 2 <= j < 2 + |k| ==> t[p + j] == u[j];
    ClosesAt(t, p + 2, q);
    assert t[p + 2..q] == k;
  }

  /** The keys of the parts are the first key followed by the keys of the others. */
  lemma PartKeysCons(parts: seq<(string, string)>)
    requires parts != []
    ensures PartKeys(parts) == [parts[0].0] + PartKeys(parts[1..])
  {
    assert forall i :: 0 <= i < |parts| - 1 ==> parts[1..][i] == parts[i + 1];
  }

  /** The template's first text, its first placeholder and the rest, located in `t`. */
  lemma TemplateHead(t: string, off: nat, a0: string, k: string, tail: string)
    requires off <= |t| && t[off..] == a0 + Placeholder(k) + tail && '$' !in a0
    ensures off + |a0| + |Placeholder(k)| <= |t|
    ensures forall i :: off <= i < off + |a0| ==> t[i] != '$'
    ensures t[off + |a0|..off + |a0| + |Placeholder(k)|] == Placeholder(k)
    ensures t[off + |a0| + |Placeholder(k)|..] == tail
  {
    var p := off + |a0|;
    var q := p + |Placeholder(k)|;
    assert forall i :: off <= i < p ==> t[i] == t[off..][i - off] == a0[i - off];
    assert t[p..q] == t[off..][|a0|..|a0| + |Placeholder(k)|];
    assert t[q..] == t[off..][|a0| + |Placeholder(k)|..];
  }

  /**
   * A topic with one placeholder between plain texts becomes the texts around the
   * attribute that matches the key case-insensitively, or around '' when that
   * attribute is missing or falsy. The key must not be a repetition count (`CountKey`).
   * Unlike `EveryPlaceholder`, the replacement may hold '$'.
   */
  lemma SinglePlaceholder(a: string, key: string, b: string, attrs: seq<(string, Value)>)
    requires PlainKey(key) && '$' !in a && '$' !in b
    ensures TopicReplace.TopicReplace(a + Placeholder(key) + b, Some(attrs))
      == a + Replacement(LowerKeys(attrs), Lower(key)) + b
  {
    var t := a + Placeholder(key) + b;
    SingleKey(a, key, b);
    var lower := LowerKeys(attrs);
    var rep := Replacement(lower, Lower(key));
    ReplaceAllSplit(a, Placeholder(key), b, rep);
    ReplaceAllAbsent(b, Placeholder(key), rep);
    assert TopicReplace.TopicReplace(t, Some(attrs)) == ApplyKeys(t, [key], lower);
    assert ApplyKeys(t, [key], lower) == ApplyKeys(a + rep + b, [], lower);
  }

  /** The search finds the one placeholder between plain texts. */
  lemma SingleKey(a: string, key: string, b: string)
    requires PlainKey(key) && '$' !in a && '$' !in b
    ensures Keys(a + Placeholder(key) + b, 0) == [key]
  {
    var t := a + Placeholder(key) + b;
    var p := |a|;
    var q := p + |Placeholder(key)|;
    assert t[0..] == t;
    TemplateHead(t, 0, a, key, b);
    KeysSkipPlain(t, 0, p);
    KeysAtPlaceholder(t, p, key);
    assert forall i :: q <= i < |t| ==> t[i] == t[q..][i - q];
    NoPlaceholderNoKeys(t, q);
    assert [key] + Keys(t, q) == [key];
  }

  /** The search finds the keys of the template's placeholders, in order. */
  lemma {:induction false} KeysOfTemplate(t: string, off: nat, a0: string, parts: seq<(string, string)>,
                                          lower: map<string, Value>)
    requires off <= |t| && t[off..] == Template(a0, parts) && WellSplit(a0, parts, lower)
    ensures Keys(t, off) == PartKeys(parts)
    decreases |parts|
  {
    if parts == [] {
      assert forall i :: off <= i < |t| ==> t[i] == t[off..][i - off];
      NoPlaceholderNoKeys(t, off);
    } else {
      var k, t0, rest := parts[0].0, parts[0].1, parts[1..];
      WellSplitTail(a0, parts, lower);
      var p := off + |a0|;
      var q := p + |Placeholder(k)|;
      TemplateHead(t, off, a0, k, Template(t0, rest));
      KeysSkipPlain(t, off, p);
      KeysAtPlaceholder(t, p, k);
      KeysOfTemplate(t, q, t0, rest, lower);
      PartKeysCons(parts);
    }
  }

  /**
   * A topic of plain texts and placeholders becomes the same texts with every
   * placeholder replaced by the text of the attribute its key matches
   * case-insensitively, or by '' when that attribute is missing or falsy. The
   * replacements must be free of '$': otherwise one could carry a placeholder that a
   * later key replaces in turn. The keys must be plain (`PlainKey`), which also
   * leaves out keys that are repetition counts.
   */
  lemma EveryPlaceholder(a0: string, parts: seq<(string, string)>, attrs: seq<(string, Value)>)
    requires WellSplit(a0, parts, LowerKeys(attrs))
    ensures TopicReplace.TopicReplace(Template(a0, parts), Some(attrs)) == Filled(a0, parts, LowerKeys(attrs))
  {
    var lower := LowerKeys(attrs);
    var t := Template(a0, parts);
    PartlyNone(a0, parts, lower);
    if t != [] {
      assert t[0..] == t;
      KeysOfTemplate(t, 0, a0, parts, lower);
      var keys := PartKeys(parts);
      ApplyKeysFills(a0, parts, {}, lower, keys);
      PartlyAll(a0, parts, {} + KeySet(keys), lower);
    }
  }
}
