/**
 * `topicReplace`: `${key}` placeholders in a topic replaced by attributes looked
 * up case-insensitively, or by the empty text when the attribute is missing or falsy.
 */
module TopicReplace {
  import opened Wrappers
  import opened JsValues

  /** The position of the first '}' at or after `q`, or the length of the text. */
  function FirstClose(t: string, q: nat): (r: nat)
    requires q <= |t|
    ensures q <= r <= |t| && (r < |t| ==> t[r] == '}')
    ensures forall k :: q <= k < r ==> t[k] != '}'
    decreases |t| - q
  {
    if q == |t| || t[q] == '}' then q else FirstClose(t, q + 1)
  }

  /**
   * The keys of the placeholders from position `p` on, as the global match of
   * "${", at least one character other than '}', then '}' finds them: left to right,
   * each search resuming after the previous placeholder.
   */
  function Keys(t: string, p: nat): (r: seq<string>)
    requires p <= |t|
    ensures forall i :: 0 <= i < |r| ==> r[i] != [] && '}' !in r[i]
    decreases |t| - p
  {
    if p + 2 > |t| then []
    else if t[p] == '$' && t[p + 1] == '{' then
      var q := FirstClose(t, p + 2);
      if q < |t| && q > p + 2 then
        [t[p + 2..q]] + Keys(t, q + 1)
      else Keys(t, p + 1)
    else Keys(t, p + 1)
  }

  /** `t.replace(/pat/g, rep)` for a pattern that is plain text: every occurrence, left to right. */
  function ReplaceAll(t: string, pat: string, rep: string): string
    requires pat != []
  {
    if pat <= t then rep + ReplaceAll(t[|pat|..], pat, rep)
    else if t == [] then []
    else [t[0]] + ReplaceAll(t[1..], pat, rep)
  }

  /** The attribute names lower-cased; a later name overwrites an earlier one that lower-cases alike. */
  function LowerKeys(attrs: seq<(string, Value)>): map<string, Value>
  {
    if attrs == [] then map[]
    else LowerKeys(attrs[..|attrs| - 1])[Lower(attrs[|attrs| - 1].0) := attrs[|attrs| - 1].1]
  }

  /** The text a placeholder becomes: the attribute's text when it is truthy, otherwise ''. */
  function Replacement(lower: map<string, Value>, key: string): (r: string)
    ensures key !in lower ==> r == ""
    ensures key in lower && !Truthy(lower[key]) ==> r == ""
    ensures key in lower && Truthy(lower[key]) ==> r == StringOf(lower[key])
  {
    if key in lower && Truthy(lower[key]) then StringOf(lower[key]) else ""
  }

  /** The placeholder for a key. */
  function Placeholder(key: string): string
  {
    "${" + key + "}"
  }

  /** Each matched key replaced in turn, in the order the matches were found. */
  function ApplyKeys(t: string, keys: seq<string>, lower: map<string, Value>): string
    decreases |keys|
  {
    if keys == [] then t
    else ApplyKeys(ReplaceAll(t, Placeholder(keys[0]), Replacement(lower, Lower(keys[0]))), keys[1..], lower)
  }

  /**
   * `topicReplace`: an empty topic, or attributes that are no object (`None`), leave
   * the topic as it is; otherwise every placeholder is replaced.
   */
  function TopicReplace(topic: string, attrs: Option<seq<(string, Value)>>): (r: string)
    ensures topic == [] || attrs.None? ==> r == topic
  {
    if topic == [] || attrs.None? then topic
    else ApplyKeys(topic, Keys(topic, 0), LowerKeys(attrs.value))
  }

  /**
   * `topicReplace` as the source runs it: the lower-cased copy of the attributes is
   * filled in one loop and the placeholders are replaced in another.
   */
  method TopicReplaceMethod(topic: string, attrs: Option<seq<(string, Value)>>) returns (r: string)
    ensures r == TopicReplace(topic, attrs)
  {
    if topic == [] || attrs.None? {
      return topic;
    }
    var a := attrs.value;
    var lower: map<string, Value> := map[];
    var i := 0;
    while i < |a|
      invariant 0 <= i <= |a|
      invariant lower == LowerKeys(a[..i])
    {
      assert a[..i + 1][..i] == a[..i];
      lower := lower[Lower(a[i].0) := a[i].1];
      i := i + 1;
    }
    assert a[..|a|] == a;
    var keys := Keys(topic, 0);
    r := topic;
    var k := 0;
    while k < |keys|
      invariant 0 <= k <= |keys|
      invariant ApplyKeys(r, keys[k..], lower) == ApplyKeys(topic, keys, lower)
    {
      assert keys[k..][1..] == keys[k + 1..];
      r := ReplaceAll(r, Placeholder(keys[k]), Replacement(lower, Lower(keys[k])));
      k := k + 1;
    }
  }

  /** A text without "${" holds no placeholder. */
  lemma {:induction false} NoPlaceholderNoKeys(t: string, p: nat)
    requires p <= |t|
    requires forall i :: p <= i < |t| ==> t[i] != '$'
    ensures Keys(t, p) == []
    decreases |t| - p
  {
    if p + 2 <= |t| {
      NoPlaceholderNoKeys(t, p + 1);
    }
  }

  /** Replacing keys in a text that contains none of their placeholders changes nothing. */
  lemma {:induction false} ReplaceAllAbsent(t: string, pat: string, rep: string)
    requires pat != [] && forall i :: 0 <= i < |t| ==> t[i] != pat[0]
    ensures ReplaceAll(t, pat, rep) == t
  {
    if t != [] {
      assert |pat| > |t| || pat[0] != t[..|pat|][0];
      ReplaceAllAbsent(t[1..], pat, rep);
    }
  }

  /** A topic without a '$' is returned unchanged. */
  lemma TopicWithoutPlaceholders(topic: string, attrs: Option<seq<(string, Value)>>)
    requires forall i :: 0 <= i < |topic| ==> topic[i] != '$'
    ensures TopicReplace(topic, attrs) == topic
  {
    NoPlaceholderNoKeys(topic, 0);
  }

  /** Attribute `i` is the last one whose name lower-cases to `key`. */
  predicate LastNamed(attrs: seq<(string, Value)>, key: string, i: int)
  {
    0 <= i < |attrs| && Lower(attrs[i].0) == key && forall j :: i < j < |attrs| ==> Lower(attrs[j].0) != key
  }

  /**
   * The lower-cased attributes hold a name exactly when some attribute lower-cases to
   * it, and then the value of the last such attribute.
   */
  lemma {:induction false} LowerKeysLookup(attrs: seq<(string, Value)>, key: string)
    ensures key in LowerKeys(attrs) <==> exists i :: 0 <= i < |attrs| && Lower(attrs[i].0) == key
    ensures key in LowerKeys(attrs) ==> exists i :: LastNamed(attrs, key, i) && LowerKeys(attrs)[key] == attrs[i].1
    decreases |attrs|
  {
    if attrs != [] {
      var n := |attrs| - 1;
      var init := attrs[..n];
      LowerKeysLookup(init, key);
      assert forall i :: 0 <= i < n ==> init[i] == attrs[i];
      var m := LowerKeys(init);
      assert LowerKeys(attrs) == m[Lower(attrs[n].0) := attrs[n].1];
      if Lower(attrs[n].0) == key {
        assert LastNamed(attrs, key, n) && LowerKeys(attrs)[key] == attrs[n].1;
      } else if key in m {
        var i :| LastNamed(init, key, i) && m[key] == init[i].1;
        forall j | i < j < |attrs|
          ensures Lower(attrs[j].0) != key
        {
          if j < n {
            assert attrs[j] == init[j];
          }
        }
        assert attrs[i] == init[i];
        assert LastNamed(attrs, key, i) && LowerKeys(attrs)[key] == attrs[i].1;
      } else {
        assert key !in LowerKeys(attrs);
        forall i | 0 <= i < |attrs|
          ensures Lower(attrs[i].0) != key
        {
          if i < n {
            assert attrs[i] == init[i];
          }
        }
      }
    }
  }

  /** Occurrences are replaced from left to right: text before the first one is kept. */
  lemma {:induction false} ReplaceAllSplit(a: string, pat: string, b: string, rep: string)
    requires pat != [] && forall i :: 0 <= i < |a| ==> a[i] != pat[0]
    ensures ReplaceAll(a + pat + b, pat, rep) == a + rep + ReplaceAll(b, pat, rep)
    decreases |a|
  {
    if a == [] {
      assert a + pat + b == pat + b;
      assert (pat + b)[|pat|..] == b;
    } else {
      var t := a + pat + b;
      assert |pat| > |t| || pat[0] != t[..|pat|][0];
      assert (a + pat + b)[1..] == a[1..] + pat + b;
      ReplaceAllSplit(a[1..], pat, b, rep);
    }
  }

  /** The search skips a stretch of text without '$'. */
  lemma {:induction false} KeysSkipPlain(t: string, p: nat, q: nat)
    requires p <= q <= |t| && forall i :: p <= i < q ==> t[i] != '$'
    ensures Keys(t, p) == Keys(t, q)
    decreases q - p
  {
    if p < q {
      KeysSkipPlain(t, p + 1, q);
    }
  }

  /** The first '}' from `q0` on is at `q` when the stretch before it has none. */
  lemma {:induction false} ClosesAt(t: string, q0: nat, q: nat)
    requires q0 <= q < |t| && t[q] == '}' && forall k :: q0 <= k < q ==> t[k] != '}'
    ensures FirstClose(t, q0) == q
    decreases q - q0
  {
    if q0 < q {
      ClosesAt(t, q0 + 1, q);
    }
  }
}
