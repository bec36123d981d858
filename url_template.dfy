/**
 * `buildUrl(path, params)`: fill the `:key` placeholders of an API path. The
 * parameter entries are visited in order, and each one rewrites the leftmost
 * `:key` of the url built so far with `String.prototype.replace`, whose
 * replacement string expands `$`-patterns (ECMAScript section 22.1.3.19.1,
 * GetSubstitution).
 */
module UrlTemplate {
  import opened MatchRecord

  /** One `[key, value]` pair of `Object.entries(params)`, the value already
      converted by `String(value)`. */
  datatype Entry = Entry(key: string, value: string)

  /** `pat` occurs in `s` starting at index `i`. */
  predicate OccursAt(s: string, pat: string, i: int)
  {
    0 <= i && i + |pat| <= |s| && s[i..i + |pat|] == pat
  }

  /** `s.indexOf(pat, from)`: the leftmost occurrence at or after `from`. */
  function IndexFrom(s: string, pat: string, from: nat): (r: Option<nat>)
    requires from <= |s|
    ensures r.Some? ==> from <= r.value && OccursAt(s, pat, r.value)
                        && forall j :: from <= j < r.value ==> !OccursAt(s, pat, j)
    ensures r.None? ==> forall j :: from <= j ==> !OccursAt(s, pat, j)
    decreases |s| - from
  {
    if from + |pat| > |s| then None
    else if s[from..from + |pat|] == pat then Some(from)
    else IndexFrom(s, pat, from + 1)
  }

  /** The placeholder that key `k` fills. */
  function Placeholder(k: string): string
  {
    [':'] + k
  }

  /** The replacement text `rep` with its `$`-patterns expanded, for a match
      `matched` that has `before` on its left and `after` on its right. A
      string pattern has no capture groups, so `$1` and `$<` stay literal. */
  function Expand(rep: string, matched: string, before: string, after: string): string
  {
    if rep == [] then []
    else if rep[0] == '$' && |rep| >= 2 && rep[1] == '$' then "$" + Expand(rep[2..], matched, before, after)
    else if rep[0] == '$' && |rep| >= 2 && rep[1] == '&' then matched + Expand(rep[2..], matched, before, after)
    else if rep[0] == '$' && |rep| >= 2 && rep[1] == '`' then before + Expand(rep[2..], matched, before, after)
    else if rep[0] == '$' && |rep| >= 2 && rep[1] == '\'' then after + Expand(rep[2..], matched, before, after)
    else [rep[0]] + Expand(rep[1..], matched, before, after)
  }

  /** A replacement without `$` is inserted verbatim. */
  lemma {:induction false} ExpandPlain(rep: string, matched: string, before: string, after: string)
    requires '$' !in rep
    ensures Expand(rep, matched, before, after) == rep
  {
    if rep != [] {
      assert '$' !in rep[1..] by {
        forall c | c in rep[1..] ensures c != '$' { assert c in rep; }
      }
      ExpandPlain(rep[1..], matched, before, after);
    }
  }

  /** `p` occurs in `s` at `i` and nowhere to the left of `i`. */
  ghost predicate Leftmost(s: string, p: string, i: int)
  {
    OccursAt(s, p, i) && forall j :: 0 <= j < i ==> !OccursAt(s, p, j)
  }

  /** One visited entry: `if (url.includes(p)) url = url.replace(p, value)`. */
  function Step(url: string, e: Entry): string
  {
    var p := Placeholder(e.key);
    match IndexFrom(url, p, 0)
    case None => url
    case Some(i) => url[..i] + Expand(e.value, p, url[..i], url[i + |p|..]) + url[i + |p|..]
  }

  /** An entry whose placeholder does not occur leaves the url unchanged. */
  lemma StepAbsent(url: string, e: Entry)
    requires forall i :: !OccursAt(url, Placeholder(e.key), i)
    ensures Step(url, e) == url
  {
  }

  /** An entry whose placeholder occurs rewrites its leftmost occurrence
      only, and keeps the text on either side verbatim. */
  lemma StepLeftmost(url: string, e: Entry, i: nat)
    requires Leftmost(url, Placeholder(e.key), i)
    ensures var p := Placeholder(e.key);
            Step(url, e) == url[..i] + Expand(e.value, p, url[..i], url[i + |p|..]) + url[i + |p|..]
  {
    var k := IndexFrom(url, Placeholder(e.key), 0);
    assert k.Some?;
    assert !(k.value < i) && !(i < k.value);
  }

  /** No ':' before index `i` means no placeholder starts before `i`. */
  lemma NoColonBefore(url: string, k: string, i: nat)
    requires i <= |url| && ':' !in url[..i]
    ensures forall j :: 0 <= j < i ==> !OccursAt(url, Placeholder(k), j)
  {
    forall j | 0 <= j < i ensures !OccursAt(url, Placeholder(k), j) {
      assert url[..i][j] == url[j];
      assert url[j] != ':';
      if j + |Placeholder(k)| <= |url| {
        assert url[j..j + |Placeholder(k)|][0] == url[j];
      }
    }
  }

  /** The entries applied in order, each to the result of the previous ones. */
  function FillAll(url: string, entries: seq<Entry>): string
    decreases entries
  {
    if entries == [] then url
    else FillAll(Step(url, entries[0]), entries[1..])
  }

  /** `buildUrl`: `params` is `None` when the caller passes no parameter
      object, and otherwise the entries of that object in iteration order. */
  method BuildUrl(path: string, params: Option<seq<Entry>>) returns (url: string)
    ensures params.None? ==> url == path
    ensures params.Some? ==> url == FillAll(path, params.value)
  {
    url := path;
    if params.Some? {
      var entries := params.value;
      var i := 0;
      while i < |entries|
        invariant 0 <= i <= |entries|
        invariant FillAll(url, entries[i..]) == FillAll(path, entries)
      {
        assert entries[i..][1..] == entries[i + 1..];
        url := Step(url, entries[i]);
        i := i + 1;
      }
    }
  }

  /** Applying `a` and then `b` is applying their concatenation. */
  lemma {:induction false} FillAllConcat(url: string, a: seq<Entry>, b: seq<Entry>)
    ensures FillAll(url, a + b) == FillAll(FillAll(url, a), b)
    decreases a
  {
    if a != [] {
      assert (a + b)[1..] == a[1..] + b;
      FillAllConcat(Step(url, a[0]), a[1..], b);
    } else {
      assert a + b == b;
    }
  }

  /** An empty parameter object leaves the path as it is. */
  lemma NoEntries(path: string)
    ensures FillAll(path, []) == path
  {
  }

  /** A replacement of the leftmost placeholder by a `$`-free value changes
      the length by |value| - (|key| + 1). */
  lemma StepLength(url: string, e: Entry, i: nat)
    requires OccursAt(url, Placeholder(e.key), i)
    requires '$' !in e.value
    ensures |Step(url, e)| == |url| + |e.value| - (|e.key| + 1)
  {
    var p := Placeholder(e.key);
    var k := IndexFrom(url, p, 0);
    assert k.Some?;
    ExpandPlain(e.value, p, url[..k.value], url[k.value + |p|..]);
  }

  /** Every placeholder starts with ':', so a path without ':' is returned
      unchanged whatever the parameters. */
  lemma {:induction false} NoColonUnchanged(path: string, entries: seq<Entry>)
    requires ':' !in path
    ensures FillAll(path, entries) == path
  {
    if entries != [] {
      NoColonBefore(path, entries[0].key, |path|);
      assert path[..|path|] == path;
      StepAbsent(path, entries[0]);
      NoColonUnchanged(path, entries[1..]);
    }
  }

  /** With no ':' to the left of the placeholder for `k`, that placeholder
      is the one replaced, and the text around it is kept. */
  lemma StepFirstPlaceholder(pre: string, k: string, v: string, post: string)
    requires ':' !in pre
    ensures var p := Placeholder(k);
            Step(pre + p + post, Entry(k, v)) == pre + Expand(v, p, pre, post) + post
  {
    var url, p := pre + Placeholder(k) + post, Placeholder(k);
    assert url[..|pre|] == pre;
    assert url[|pre|..|pre| + |p|] == p;
    assert url[|pre| + |p|..] == post;
    NoColonBefore(url, k, |pre|);
    StepLeftmost(url, Entry(k, v), |pre|);
  }

  /** A url with one placeholder for `k`, no ':' to its left and a
      `$`-free value: the placeholder is replaced and nothing else moves. */
  lemma SinglePlaceholder(pre: string, k: string, v: string, post: string)
    requires ':' !in pre && '$' !in v
    ensures FillAll(pre + Placeholder(k) + post, [Entry(k, v)]) == pre + v + post
  {
    StepFirstPlaceholder(pre, k, v, post);
    ExpandPlain(v, Placeholder(k), pre, post);
  }

  /** The teams-list path of a category: its one placeholder is filled with
      the category id. */
  lemma TeamsListUrl(id: string)
    requires '$' !in id
    ensures FillAll("/api/categories/:categoryId/teams", [Entry("categoryId", id)])
            == "/api/categories/" + id + "/teams"
  {
    assert "/api/categories/:categoryId/teams" == "/api/categories/" + Placeholder("categoryId") + "/teams";
    SinglePlaceholder("/api/categories/", "categoryId", id, "/teams");
  }

  /** The placeholder key is matched as a plain substring: key `id` rewrites
      the `:id` prefix of `:idx` and leaves its `x` behind. */
  lemma PrefixPlaceholder(v: string)
    requires '$' !in v
    ensures FillAll("/m/:idx", [Entry("id", v)]) == "/m/" + v + "x"
  {
    assert "/m/:idx" == "/m/" + Placeholder("id") + "x";
    SinglePlaceholder("/m/", "id", v, "x");
  }

  /** Entries are applied in order, each to the previous result: a value that
      is itself the placeholder `:b` is rewritten by a later entry `b`. */
  lemma LaterEntryRewritesValue(pre: string, a: string, b: string, v: string)
    requires ':' !in pre && '$' !in b && '$' !in v
    ensures FillAll(pre + Placeholder(a), [Entry(a, Placeholder(b)), Entry(b, v)]) == pre + v
  {
    assert '$' !in Placeholder(b);
    SinglePlaceholder(pre, a, Placeholder(b), "");
    assert pre + Placeholder(a) + "" == pre + Placeholder(a);
    SinglePlaceholder(pre, b, v, "");
    assert pre + Placeholder(b) + "" == pre + Placeholder(b);
    assert pre + v + "" == pre + v;
    FillAllConcat(pre + Placeholder(a), [Entry(a, Placeholder(b))], [Entry(b, v)]);
    assert [Entry(a, Placeholder(b))] + [Entry(b, v)] == [Entry(a, Placeholder(b)), Entry(b, v)];
  }

  /** The value `$&` expands to the matched placeholder itself, so the url
      comes back unchanged. */
  lemma DollarAmpersandKeepsPlaceholder(pre: string, k: string, post: string)
    requires ':' !in pre
    ensures FillAll(pre + Placeholder(k) + post, [Entry(k, "$&")]) == pre + Placeholder(k) + post
  {
    var p := Placeholder(k);
    StepFirstPlaceholder(pre, k, "$&", post);
    assert Expand("$&", p, pre, post) == p + Expand("", p, pre, post);
  }
}
