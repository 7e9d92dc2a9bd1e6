/** {{key}} substitution in e-mail templates.  The loop runs over a Go map, so the
    keys come in an arbitrary order, and each replacement rewrites the whole text, with
    what earlier replacements have put there.  The values are any texts. */
module TemplateRendering {
  import opened Text

  /** A template seen as plain text and placeholders. */
  datatype Part = Plain(text: string) | Hole(key: string)

  function Placeholder(key: string): string {
    "{{" + key + "}}"
  }

  function Flatten(parts: seq<Part>): string {
    if parts == [] then ""
    else TextOf(parts[0]) + Flatten(parts[1..])
  }

  function TextOf(p: Part): string {
    if p.Plain? then p.text else Placeholder(p.key)
  }

  predicate BraceFree(s: string) {
    forall i :: 0 <= i < |s| ==> s[i] != '{' && s[i] != '}'
  }

  /** Opening braces only in placeholders. */
  ghost predicate WellFormed(parts: seq<Part>) {
    forall i :: 0 <= i < |parts| ==> if parts[i].Plain? then '{' !in parts[i].text else BraceFree(parts[i].key)
  }

  ghost predicate BraceFreeKeys(variables: map<string, string>) {
    forall k :: k in variables ==> BraceFree(k)
  }

  /** All bound placeholders filled at once; the others stay as they are, and what the
      values bring along is not looked at again. */
  function Fill(parts: seq<Part>, variables: map<string, string>): seq<Part> {
    seq(|parts|, i requires 0 <= i < |parts| =>
      if parts[i].Hole? && parts[i].key in variables then Plain(variables[parts[i].key]) else parts[i])
  }

  function RenderInOrder(template: string, order: seq<string>, variables: map<string, string>): string
    requires forall k :: k in order ==> k in variables
  {
    if order == [] then template
    else
      var n := |order| - 1;
      ReplaceAll(RenderInOrder(template, order[..n], variables), Placeholder(order[n]), variables[order[n]])
  }

  ghost predicate Enumerates(order: seq<string>, variables: map<string, string>) {
    && (forall k :: k in order <==> k in variables)
    && (forall i, j :: 0 <= i < j < |order| ==> order[i] != order[j])
  }

  /** Whatever the well-formed template and the order in which the map is visited, the
      result is the simultaneous substitution. */
  ghost predicate Simultaneous(m: map<string, string>) {
    forall parts: seq<Part>, order: seq<string> :: WellFormed(parts) && Enumerates(order, m) ==>
      RenderInOrder(Flatten(parts), order, m) == Flatten(Fill(parts, m))
  }

  // ---------- what a caller can check of the values ----------

  predicate Occurs(s: string, p: string) {
    Prefixed(s, p) || (s != "" && Occurs(s[1..], p))
  }

  /** A value ends in two or more characters that begin p: plain text behind it can
      supply the rest. */
  ghost predicate Begins(value: string, p: string) {
    exists n :: 2 <= n < |p| && Suffixed(value, p[..n])
  }

  /** A brace at the end of one value, and a value with which p goes on, or which plain
      text behind it can complete. */
  ghost predicate Continues(value: string, next: string, p: string)
    requires p != ""
  {
    Suffixed(value, "{") && next != "" && (Prefixed(next, p[1..]) || Prefixed(p[1..], next))
  }

  /** The placeholder of j can be pieced together from the values of other keys and
      text without opening braces. */
  ghost predicate CanForm(m: map<string, string>, j: string) {
    var p := Placeholder(j);
    || (exists k :: k in m && k != j && (Occurs(m[k], p) || Begins(m[k], p)))
    || (exists k, k' :: k in m && k' in m && k != j && k' != j && Continues(m[k], m[k'], p))
  }

  /** No placeholder of a bound key can be pieced together, unless the key stands for
      its own placeholder. */
  ghost predicate Independent(m: map<string, string>) {
    forall j :: j in m && m[j] != Placeholder(j) ==> !CanForm(m, j)
  }

  // ---------- when a replacement passes over text ----------

  /** No match begins in t when it is followed by rest. */
  ghost predicate NoMatchIn(t: string, rest: string, p: string) {
    forall i :: 0 <= i < |t| ==> !Prefixed(t[i..] + rest, p)
  }

  lemma NoMatchStep(t: string, rest: string, p: string)
    requires NoMatchIn(t, rest, p) && t != ""
    ensures !Prefixed(t + rest, p) && NoMatchIn(t[1..], rest, p) && (t + rest)[1..] == t[1..] + rest
  {
    assert t[0..] == t;
    forall i | 0 <= i < |t[1..]|
      ensures !Prefixed(t[1..][i..] + rest, p)
    {
      assert t[1..][i..] == t[i + 1..];
    }
  }

  lemma {:induction false} PassesOver(t: string, rest: string, p: string, v: string)
    requires p != "" && NoMatchIn(t, rest, p)
    ensures ReplaceAll(t + rest, p, v) == t + ReplaceAll(rest, p, v)
    decreases |t|
  {
    if t == "" {
      assert t + rest == rest;
    } else {
      var more := ReplaceAll(rest, p, v);
      NoMatchStep(t, rest, p);
      PassesOver(t[1..], rest, p, v);
      ReplaceAllStep(t + rest, p, v);
      assert [t[0]] + (t[1..] + more) == t + more;
    }
  }

  lemma PlainNoMatch(t: string, rest: string, key: string)
    requires '{' !in t
    ensures NoMatchIn(t, rest, Placeholder(key))
  {
    forall i | 0 <= i < |t|
      ensures !Prefixed(t[i..] + rest, Placeholder(key))
    {
      assert (t[i..] + rest)[0] == t[i];
      NotPrefixed(t[i..] + rest, Placeholder(key), 0);
    }
  }

  lemma PlaceholdersDiffer(k: string, other: string, rest: string)
    requires BraceFree(k) && BraceFree(other) && k != other
    ensures !Prefixed(Placeholder(other) + rest, Placeholder(k))
  {
    var s, p := Placeholder(other) + rest, Placeholder(k);
    var d := 0;
    while d < |k| && d < |other| && k[d] == other[d]
      invariant d <= |k| && d <= |other| && k[..d] == other[..d]
    {
      assert k[..d + 1] == k[..d] + [k[d]] && other[..d + 1] == other[..d] + [other[d]];
      d := d + 1;
    }
    assert d < |k| || d < |other| by {
      assert d == |k| ==> k == k[..d];
      assert d == |other| ==> other == other[..d];
    }
    assert p[2 + d] == if d < |k| then k[d] else '}';
    assert s[2 + d] == if d < |other| then other[d] else '}';
    NotPrefixed(s, p, 2 + d);
  }

  lemma HoleNoMatch(k: string, other: string, rest: string)
    requires BraceFree(k) && BraceFree(other) && k != other
    ensures NoMatchIn(Placeholder(other), rest, Placeholder(k))
  {
    var t, p := Placeholder(other), Placeholder(k);
    forall i | 0 <= i < |t|
      ensures !Prefixed(t[i..] + rest, p)
    {
      var s := t[i..] + rest;
      if i == 0 {
        assert t[0..] == t;
        PlaceholdersDiffer(k, other, rest);
      } else if i == 1 {
        assert s[1] == t[2] != '{' && p[1] == '{';
        NotPrefixed(s, p, 1);
      } else {
        assert s[0] == t[i] != '{';
        NotPrefixed(s, p, 0);
      }
    }
  }

  /** A prefix of a concatenation ends in the first part or in the second. */
  lemma PrefixOfConcat(t: string, rest: string, p: string)
    ensures Prefixed(t + rest, p) ==>
      if |t| >= |p| then Prefixed(t, p) else Prefixed(p, t) && Prefixed(rest, p[|t|..])
  {
    if Prefixed(t + rest, p) {
      var s := t + rest;
      if |t| >= |p| {
        assert s[..|p|] == t[..|p|];
      } else {
        assert s[..|p|][..|t|] == t;
        assert s[..|p|][|t|..] == rest[..|p| - |t|];
      }
    }
  }

  /** What a suffix that is a prefix of p, or begins with it, means. */
  lemma SuffixTells(t: string, p: string, i: nat)
    requires |p| > 1 && p[0] == '{' && i < |t|
    ensures Prefixed(t[i..], p) ==> Occurs(t, p)
    ensures Prefixed(p, t[i..]) && 2 <= |t| - i < |p| ==> Begins(t, p)
    ensures Prefixed(p, t[i..]) && |t| - i == 1 ==> Suffixed(t, "{")
  {
    var u := t[i..];
    if Prefixed(u, p) {
      OccursAt(t, p, i);
    }
    if Prefixed(p, u) {
      assert p[..|u|] == u && t[|t| - |u|..] == u;
      if |u| >= 2 && |u| < |p| {
        assert Suffixed(t, p[..|u|]);
      } else if |u| == 1 {
        assert u == "{";
      }
    }
  }

  /** A value from which no match can be formed with what follows it. */
  lemma ValueNoMatch(t: string, rest: string, p: string)
    requires |p| > 1 && p[0] == '{' && !Occurs(t, p) && !Begins(t, p)
    requires Suffixed(t, "{") ==> !Prefixed(rest, p[1..])
    ensures NoMatchIn(t, rest, p)
  {
    forall i | 0 <= i < |t|
      ensures !Prefixed(t[i..] + rest, p)
    {
      var u := t[i..];
      PrefixOfConcat(u, rest, p);
      SuffixTells(t, p, i);
    }
  }

  lemma {:induction false} OccursAt(s: string, p: string, i: nat)
    requires i <= |s| && Prefixed(s[i..], p)
    ensures Occurs(s, p)
    decreases i
  {
    if i == 0 {
      assert s[0..] == s;
    } else {
      assert s[1..][i - 1..] == s[i..];
      OccursAt(s[1..], p, i - 1);
    }
  }

  // ---------- one replacement ----------

  /** What the keys in `done` have put in place of their holes. */
  ghost predicate Filled(p: Part, m: map<string, string>, done: set<string>) {
    p.Plain? ==> '{' !in p.text || exists k :: k in done && k in m && p.text == m[k]
  }

  /** Nothing that follows an opening brace completes the placeholder of j. */
  lemma {:induction false} NothingContinues(frags: seq<Part>, m: map<string, string>, done: set<string>,
                                            j: string, value: string)
    requires BraceFree(j) && Suffixed(value, "{")
    requires forall i :: 0 <= i < |frags| ==> Filled(frags[i], m, done) && (frags[i].Hole? ==> BraceFree(frags[i].key))
    requires forall k :: k in done && k in m ==> !Continues(value, m[k], Placeholder(j))
    ensures !Prefixed(Flatten(frags), Placeholder(j)[1..])
    decreases |frags|
  {
    var p := Placeholder(j)[1..];
    assert p[0] == '{' && p[1] != '{';
    if frags != [] {
      var t, rest := TextOf(frags[0]), Flatten(frags[1..]);
      if t == "" {
        NothingContinues(frags[1..], m, done, j, value);
        assert t + rest == rest;
      } else if frags[0].Hole? {
        assert (t + rest)[1] == '{';
        NotPrefixed(t + rest, p, 1);
      } else if '{' !in t {
        assert (t + rest)[0] == t[0] && t[0] in t;
        NotPrefixed(t + rest, p, 0);
      } else {
        PrefixOfConcat(t, rest, p);
      }
    }
  }

  lemma FillOneStep(frags: seq<Part>, j: string, v: string)
    requires frags != []
    ensures Flatten(Fill(frags, map[j := v])) ==
      (if frags[0] == Hole(j) then v else TextOf(frags[0])) + Flatten(Fill(frags[1..], map[j := v]))
  {
    assert Fill(frags, map[j := v])[1..] == Fill(frags[1..], map[j := v]);
  }

  /** The values in place are too tame to make one ReplaceAll fill anything but the
      holes of its key. */
  ghost predicate Tame(m: map<string, string>, done: set<string>, j: string) {
    var p := Placeholder(j);
    && (forall k :: k in done && k in m ==> !Occurs(m[k], p) && !Begins(m[k], p))
    && (forall k, k' :: k in done && k in m && k' in done && k' in m ==> !Continues(m[k], m[k'], p))
  }

  lemma {:induction false} ReplaceFillsOne(frags: seq<Part>, m: map<string, string>, done: set<string>,
                                           j: string, v: string)
    requires BraceFree(j) && Tame(m, done, j)
    requires forall i :: 0 <= i < |frags| ==> Filled(frags[i], m, done) && (frags[i].Hole? ==> BraceFree(frags[i].key))
    ensures ReplaceAll(Flatten(frags), Placeholder(j), v) == Flatten(Fill(frags, map[j := v]))
    decreases |frags|
  {
    var p := Placeholder(j);
    if frags == [] {
      ReplaceAllShort("", p, v);
    } else {
      var rest := Flatten(frags[1..]);
      ReplaceFillsOne(frags[1..], m, done, j, v);
      FillOneStep(frags, j, v);
      match frags[0] {
        case Plain(t) =>
          if '{' !in t {
            PlainNoMatch(t, rest, j);
          } else {
            if Suffixed(t, "{") {
              NothingContinues(frags[1..], m, done, j, t);
            }
            ValueNoMatch(t, rest, p);
          }
          PassesOver(t, rest, p, v);
        case Hole(other) =>
          if other == j {
            ReplaceAllMatch(rest, p, v);
          } else {
            HoleNoMatch(j, other, rest);
            PassesOver(Placeholder(other), rest, p, v);
          }
      }
    }
  }

  // ---------- does a replacement leave a text alone? ----------

  lemma {:induction false} ReplaceLength(s: string, p: string, v: string)
    requires p != ""
    ensures |v| >= |p| ==> |ReplaceAll(s, p, v)| >= |s|
    ensures |v| <= |p| ==> |ReplaceAll(s, p, v)| <= |s|
    decreases |s|
  {
    if |s| >= |p| {
      if s[..|p|] == p {
        ReplaceLength(s[|p|..], p, v);
      } else {
        ReplaceLength(s[1..], p, v);
      }
    }
  }

  lemma {:induction false} ReplaceChanges(s: string, p: string, v: string)
    requires p != "" && v != p && Occurs(s, p)
    ensures ReplaceAll(s, p, v) != s
    decreases |s|
  {
    if Prefixed(s, p) {
      var rest := s[|p|..];
      ReplaceLength(rest, p, v);
      assert s == p + rest;
      if |v| == |p| {
        assert (v + ReplaceAll(rest, p, v))[..|p|] == v && s[..|p|] == p;
      }
    } else {
      ReplaceAllStep(s, p, v);
      ReplaceChanges(s[1..], p, v);
      assert ReplaceAll(s, p, v)[1..] == ReplaceAll(s[1..], p, v);
    }
  }

  lemma {:induction false} ReplaceKeeps(s: string, p: string, v: string)
    requires p != "" && (v == p || !Occurs(s, p))
    ensures ReplaceAll(s, p, v) == s
    decreases |s|
  {
    if |s| >= |p| {
      if s[..|p|] == p {
        ReplaceKeeps(s[|p|..], p, v);
      } else {
        ReplaceKeeps(s[1..], p, v);
      }
    }
  }

  /** Exactly when the pattern does not occur, or stands for itself. */
  lemma {:induction false} ReplaceLeavesAlone(s: string, p: string, v: string)
    requires p != ""
    ensures ReplaceAll(s, p, v) == s <==> v == p || !Occurs(s, p)
  {
    if v == p || !Occurs(s, p) {
      ReplaceKeeps(s, p, v);
    } else {
      ReplaceChanges(s, p, v);
    }
  }

  // ---------- independent values ----------

  function Keys(order: seq<string>): set<string> {
    set k | k in order
  }

  function Restricted(m: map<string, string>, keys: seq<string>): map<string, string> {
    map k | k in m && k in keys :: m[k]
  }

  lemma FillMore(parts: seq<Part>, m: map<string, string>, k: string, v: string)
    requires k !in m
    ensures Fill(Fill(parts, m), map[k := v]) == Fill(parts, m[k := v])
  {
  }

  /** Filling a hole with its own text. */
  lemma {:induction false} FillWithItself(frags: seq<Part>, j: string)
    ensures Flatten(Fill(frags, map[j := Placeholder(j)])) == Flatten(frags)
    decreases |frags|
  {
    if frags != [] {
      FillOneStep(frags, j, Placeholder(j));
      FillWithItself(frags[1..], j);
    }
  }

  lemma RestrictedMore(m: map<string, string>, order: seq<string>)
    requires order != [] && order[|order| - 1] in m
    ensures var n := |order| - 1;
      Restricted(m, order) == Restricted(m, order[..n])[order[n] := m[order[n]]]
  {
    var n := |order| - 1;
    assert forall x :: x in order <==> x in order[..n] || x == order[n];
  }

  lemma FilledParts(parts: seq<Part>, m: map<string, string>, keys: seq<string>)
    requires WellFormed(parts)
    ensures var frags := Fill(parts, Restricted(m, keys));
      forall i :: 0 <= i < |frags| ==>
        Filled(frags[i], m, Keys(keys)) && (frags[i].Hole? ==> BraceFree(frags[i].key))
  {
  }

  lemma OneKey(parts: seq<Part>, keys: seq<string>, m: map<string, string>, j: string)
    requires WellFormed(parts) && j in m && j !in keys && BraceFree(j)
    requires m[j] == Placeholder(j) || Tame(m, Keys(keys), j)
    ensures
      var before := Restricted(m, keys);
      ReplaceAll(Flatten(Fill(parts, before)), Placeholder(j), m[j]) == Flatten(Fill(parts, before[j := m[j]]))
  {
    var before := Restricted(m, keys);
    var frags := Fill(parts, before);
    FillMore(parts, before, j, m[j]);
    if m[j] == Placeholder(j) {
      ReplaceKeeps(Flatten(frags), Placeholder(j), m[j]);
      FillWithItself(frags, j);
    } else {
      FilledParts(parts, m, keys);
      ReplaceFillsOne(frags, m, Keys(keys), j, m[j]);
    }
  }

  lemma {:induction false} OrderedRendering(parts: seq<Part>, order: seq<string>, m: map<string, string>)
    requires WellFormed(parts) && BraceFreeKeys(m)
    requires forall k :: k in order ==> k in m
    requires forall i, j :: 0 <= i < j < |order| ==> order[i] != order[j]
    requires forall i :: 0 <= i < |order| ==>
      m[order[i]] == Placeholder(order[i]) || Tame(m, Keys(order[..i]), order[i])
    ensures RenderInOrder(Flatten(parts), order, m) == Flatten(Fill(parts, Restricted(m, order)))
    decreases |order|
  {
    if order == [] {
      assert Fill(parts, Restricted(m, order)) == parts;
    } else {
      var n := |order| - 1;
      var init := order[..n];
      assert forall i :: 0 <= i < n ==> init[..i] == order[..i];
      OrderedRendering(parts, init, m);
      OneKey(parts, init, m, order[n]);
      RestrictedMore(m, order);
    }
  }

  lemma IndependentTame(m: map<string, string>, done: set<string>, j: string)
    requires Independent(m) && j in m && m[j] != Placeholder(j) && j !in done
    ensures Tame(m, done, j)
  {
    assert !CanForm(m, j);
  }

  // ---------- values that piece a placeholder together ----------

  lemma {:induction false} Enumeration(keys: set<string>) returns (order: seq<string>)
    ensures forall k :: k in order <==> k in keys
    ensures forall i, j :: 0 <= i < j < |order| ==> order[i] != order[j]
  {
    if keys == {} {
      order := [];
    } else {
      var k :| k in keys;
      order := Enumeration(keys - {k});
      assert k !in order;
      order := order + [k];
    }
  }

  lemma RenderOneMore(template: string, order: seq<string>, k: string, m: map<string, string>)
    requires k in m && forall x :: x in order ==> x in m
    ensures RenderInOrder(template, order + [k], m) ==
      ReplaceAll(RenderInOrder(template, order, m), Placeholder(k), m[k])
  {
    assert (order + [k])[..|order|] == order;
  }

  ghost predicate OnlyHoles(parts: seq<Part>, keys: set<string>) {
    forall i :: 0 <= i < |parts| ==> parts[i].Hole? ==> parts[i].key in keys
  }

  /** Keys that the template does not use pass it by. */
  lemma {:induction false} OthersPassBy(parts: seq<Part>, order: seq<string>, m: map<string, string>, used: set<string>)
    requires WellFormed(parts) && BraceFreeKeys(m) && OnlyHoles(parts, used)
    requires forall x :: x in order ==> x in m && x !in used
    ensures RenderInOrder(Flatten(parts), order, m) == Flatten(parts)
    decreases |order|
  {
    if order != [] {
      var x, init := order[|order| - 1], order[..|order| - 1];
      assert forall y :: y in init ==> y in order;
      OthersPassBy(parts, init, m, used);
      ReplaceFillsOne(parts, m, {}, x, m[x]);
      assert Fill(parts, map[x := m[x]]) == parts;
    }
  }

  lemma RenderFirst(m: map<string, string>, parts: seq<Part>, others: seq<string>, k: string, used: set<string>)
    requires WellFormed(parts) && BraceFreeKeys(m) && OnlyHoles(parts, used) && k in used && k in m
    requires forall x :: x in others ==> x in m && x !in used
    ensures RenderInOrder(Flatten(parts), others + [k], m) == Flatten(Fill(parts, map[k := m[k]]))
  {
    OthersPassBy(parts, others, m, used);
    RenderOneMore(Flatten(parts), others, k, m);
    ReplaceFillsOne(parts, m, {}, k, m[k]);
  }

  lemma EnumeratedOneMore(order: seq<string>, k: string)
    requires k !in order && forall a, b :: 0 <= a < b < |order| ==> order[a] != order[b]
    ensures var more := order + [k];
      && (forall a, b :: 0 <= a < b < |more| ==> more[a] != more[b])
      && (forall x :: x in more <==> x in order || x == k)
  {
  }

  /** A template whose filled form holds the placeholder of j, and an order that gets
      there before j. */
  lemma {:induction false} FormedShows(m: map<string, string>, parts: seq<Part>, before: seq<string>, j: string)
    requires WellFormed(parts) && j in m && m[j] != Placeholder(j)
    requires (forall k :: k in before ==> k in m) && Enumerates(before + [j], m)
    requires RenderInOrder(Flatten(parts), before, m) == Flatten(Fill(parts, m))
    requires Occurs(Flatten(Fill(parts, m)), Placeholder(j))
    ensures !Simultaneous(m)
  {
    RenderOneMore(Flatten(parts), before, j, m);
    ReplaceChanges(Flatten(Fill(parts, m)), Placeholder(j), m[j]);
  }

  lemma FlattenTwo(a: Part, b: Part)
    ensures Flatten([a, b]) == TextOf(a) + TextOf(b)
  {
    assert [a, b][1..] == [b] && [b][1..] == [];
    assert Flatten([b]) == TextOf(b) + Flatten([]);
  }

  /** A template with one hole, and plain text behind it. */
  lemma {:induction false} OneHoleShows(m: map<string, string>, j: string, k: string, tail: string)
    requires BraceFreeKeys(m) && j in m && k in m && j != k && m[j] != Placeholder(j) && '{' !in tail
    requires Occurs(m[k] + tail, Placeholder(j))
    ensures !Simultaneous(m)
  {
    var parts := [Hole(k), Plain(tail)];
    var others := Enumeration(m.Keys - {j, k});
    RenderFirst(m, parts, others, k, {k});
    EnumeratedOneMore(others, k);
    EnumeratedOneMore(others + [k], j);
    assert Fill(parts, map[k := m[k]]) == Fill(parts, m) == [Plain(m[k]), Plain(tail)];
    FlattenTwo(Plain(m[k]), Plain(tail));
    FormedShows(m, parts, others + [k], j);
  }

  lemma Pieces(a: string, p: string, n: nat)
    requires n <= |p| && Suffixed(a, p[..n])
    ensures Occurs(a + p[n..], p)
  {
    var i := |a| - n;
    assert (a + p[n..])[i..] == a[i..] + p[n..] == p;
    OccursAt(a + p[n..], p, i);
  }

  lemma {:induction false} OccursMore(s: string, more: string, p: string)
    requires Occurs(s, p)
    ensures Occurs(s + more, p)
    decreases |s|
  {
    if Prefixed(s, p) {
      assert (s + more)[..|p|] == s[..|p|];
    } else {
      assert (s + more)[1..] == s[1..] + more;
      OccursMore(s[1..], more, p);
    }
  }

  lemma TailHasNoBrace(j: string, n: nat)
    requires BraceFree(j) && 2 <= n <= |Placeholder(j)|
    ensures '{' !in Placeholder(j)[n..]
  {
  }

  /** One value is enough. */
  lemma {:induction false} SingleShows(m: map<string, string>, j: string, k: string)
    requires BraceFreeKeys(m) && j in m && k in m && j != k && m[j] != Placeholder(j)
    requires Occurs(m[k], Placeholder(j)) || Begins(m[k], Placeholder(j))
    ensures !Simultaneous(m)
  {
    var p := Placeholder(j);
    if Occurs(m[k], p) {
      OccursMore(m[k], "", p);
      OneHoleShows(m, j, k, "");
    } else {
      var n :| 2 <= n < |p| && Suffixed(m[k], p[..n]);
      TailHasNoBrace(j, n);
      Pieces(m[k], p, n);
      OneHoleShows(m, j, k, p[n..]);
    }
  }

  lemma FlattenThree(a: Part, b: Part, c: Part)
    ensures Flatten([a, b, c]) == TextOf(a) + TextOf(b) + TextOf(c)
  {
    assert [a, b, c][1..] == [b, c];
    FlattenTwo(b, c);
  }

  /** The rest of the placeholder behind a value that goes on with it. */
  lemma ContinuedOccurs(a: string, b: string, j: string) returns (tail: string)
    requires BraceFree(j) && Continues(a, b, Placeholder(j))
    ensures '{' !in tail && Occurs(a + b + tail, Placeholder(j))
  {
    var p := Placeholder(j);
    if Prefixed(b, p[1..]) {
      tail := "";
    } else {
      tail := p[1 + |b|..];
      TailHasNoBrace(j, 1 + |b|);
    }
    var s, i := a + b + tail, |a| - 1;
    assert s[i..] == "{" + (b + tail);
    assert p == "{" + p[1..];
    if tail == "" && Prefixed(b, p[1..]) {
      assert b + tail == b && b[..|p| - 1] == p[1..];
      assert s[i..][..|p|] == "{" + b[..|p| - 1];
    } else {
      assert b + tail == p[1..];
    }
    OccursAt(s, p, i);
  }

  /** One value is needed twice. */
  lemma {:induction false} TwiceShows(m: map<string, string>, j: string, k: string)
    requires BraceFreeKeys(m) && j in m && k in m && j != k && m[j] != Placeholder(j)
    requires Continues(m[k], m[k], Placeholder(j))
    ensures !Simultaneous(m)
  {
    var tail := ContinuedOccurs(m[k], m[k], j);
    var parts := [Hole(k), Hole(k), Plain(tail)];
    var others := Enumeration(m.Keys - {j, k});
    RenderFirst(m, parts, others, k, {k});
    EnumeratedOneMore(others, k);
    EnumeratedOneMore(others + [k], j);
    assert Fill(parts, map[k := m[k]]) == Fill(parts, m) == [Plain(m[k]), Plain(m[k]), Plain(tail)];
    FlattenThree(Plain(m[k]), Plain(m[k]), Plain(tail));
    FormedShows(m, parts, others + [k], j);
  }

  function TwoHoles(k: string, k': string, tail: string): seq<Part> {
    [Hole(k), Hole(k'), Plain(tail)]
  }

  lemma FillTwoHoles(m: map<string, string>, k: string, k': string, tail: string)
    requires k in m && k' in m && k != k'
    ensures Fill(TwoHoles(k, k', tail), m) == [Plain(m[k]), Plain(m[k']), Plain(tail)]
    ensures Fill(TwoHoles(k, k', tail), map[k := m[k]]) == [Plain(m[k]), Hole(k'), Plain(tail)]
    ensures Fill([Plain(m[k]), Hole(k'), Plain(tail)], map[k' := m[k']]) == [Plain(m[k]), Plain(m[k']), Plain(tail)]
  {
  }

  lemma FlattenTwoHoles(m: map<string, string>, k: string, k': string, tail: string)
    requires k in m && k' in m && k != k' && BraceFree(k) && BraceFree(k') && '{' !in tail
    ensures WellFormed(TwoHoles(k, k', tail))
    ensures Flatten(Fill(TwoHoles(k, k', tail), m)) == m[k] + m[k'] + tail
  {
    FillTwoHoles(m, k, k', tail);
    FlattenThree(Plain(m[k]), Plain(m[k']), Plain(tail));
  }

  lemma RenderSecond(m: map<string, string>, k: string, k': string, tail: string)
    requires k in m && k' in m && k != k' && '{' !in tail && BraceFree(k') && Tame(m, {k}, k')
    ensures ReplaceAll(Flatten(Fill(TwoHoles(k, k', tail), map[k := m[k]])), Placeholder(k'), m[k']) ==
      Flatten(Fill(TwoHoles(k, k', tail), m))
  {
    FillTwoHoles(m, k, k', tail);
    ReplaceFillsOne([Plain(m[k]), Hole(k'), Plain(tail)], m, {k}, k', m[k']);
  }

  lemma RenderTwo(m: map<string, string>, others: seq<string>, k: string, k': string, tail: string)
    requires BraceFreeKeys(m) && k in m && k' in m && k != k' && '{' !in tail && Tame(m, {k}, k')
    requires forall x :: x in others ==> x in m && x != k && x != k'
    ensures
      var parts := TwoHoles(k, k', tail);
      RenderInOrder(Flatten(parts), others + [k] + [k'], m) == Flatten(Fill(parts, m))
  {
    var parts := TwoHoles(k, k', tail);
    RenderFirst(m, parts, others, k, {k, k'});
    RenderOneMore(Flatten(parts), others + [k], k', m);
    RenderSecond(m, k, k', tail);
  }

  lemma EnumerateAll(m: map<string, string>, others: seq<string>, k: string, k': string, j: string)
    requires j in m && k in m && k' in m && j != k && j != k' && k != k'
    requires forall x :: x in others <==> x in m.Keys - {j, k, k'}
    requires forall a, b :: 0 <= a < b < |others| ==> others[a] != others[b]
    ensures Enumerates(others + [k] + [k'] + [j], m) && forall x :: x in others + [k] + [k'] ==> x in m
  {
    EnumeratedOneMore(others, k);
    EnumeratedOneMore(others + [k], k');
    EnumeratedOneMore(others + [k] + [k'], j);
  }

  /** Two values are needed. */
  lemma {:induction false} PairShows(m: map<string, string>, j: string, k: string, k': string)
    requires BraceFreeKeys(m) && j in m && k in m && k' in m && j != k && j != k' && m[j] != Placeholder(j)
    requires Continues(m[k], m[k'], Placeholder(j)) && k != k' && Tame(m, {k}, k')
    ensures !Simultaneous(m)
  {
    var tail := ContinuedOccurs(m[k], m[k'], j);
    var others := Enumeration(m.Keys - {j, k, k'});
    RenderTwo(m, others, k, k', tail);
    FlattenTwoHoles(m, k, k', tail);
    EnumerateAll(m, others, k, k', j);
    FormedShows(m, TwoHoles(k, k', tail), others + [k] + [k'], j);
  }

  /** What goes on with one placeholder is not itself one. */
  lemma ContinuerIsNoPlaceholder(a: string, k': string, j: string)
    requires BraceFree(j)
    ensures !Continues(a, Placeholder(k'), Placeholder(j))
  {
    var p, b := Placeholder(j)[1..], Placeholder(k');
    assert b[1] == '{' && p[1] != '{';
    NotPrefixed(b, p, 1);
    NotPrefixed(p, b, 1);
  }

  lemma {:induction false} FormableShows(m: map<string, string>, j: string)
    requires BraceFreeKeys(m) && j in m && m[j] != Placeholder(j) && CanForm(m, j)
    ensures !Simultaneous(m)
  {
    var p := Placeholder(j);
    if k :| k in m && k != j && (Occurs(m[k], p) || Begins(m[k], p)) {
      SingleShows(m, j, k);
    } else {
      var k, k' :| k in m && k' in m && k != j && k' != j && Continues(m[k], m[k'], p);
      ContinuerIsNoPlaceholder(m[k], k', j);
      if k == k' {
        TwiceShows(m, j, k);
      } else if Tame(m, {k}, k') {
        PairShows(m, j, k, k');
      } else if Occurs(m[k], Placeholder(k')) || Begins(m[k], Placeholder(k')) {
        SingleShows(m, k', k);
      } else {
        TwiceShows(m, k', k);
      }
    }
  }

  // ---------- the theorem ----------

  /** The order does not matter, and the result is the simultaneous substitution,
      exactly for independent values. */
  lemma {:induction false} OrderIrrelevantIffIndependent(m: map<string, string>)
    requires BraceFreeKeys(m)
    ensures Simultaneous(m) <==> Independent(m)
  {
    if Independent(m) {
      forall parts, order: seq<string> | WellFormed(parts) && Enumerates(order, m)
        ensures RenderInOrder(Flatten(parts), order, m) == Flatten(Fill(parts, m))
      {
        forall i | 0 <= i < |order| && m[order[i]] != Placeholder(order[i])
          ensures Tame(m, Keys(order[..i]), order[i])
        {
          IndependentTame(m, Keys(order[..i]), order[i]);
        }
        OrderedRendering(parts, order, m);
        assert Restricted(m, order) == m;
      }
    } else {
      var j :| j in m && m[j] != Placeholder(j) && CanForm(m, j);
      FormableShows(m, j);
    }
  }

  /** So values without opening braces may come in any order, and unbound placeholders
      are left alone. */
  lemma {:induction false} AnyOrderFills(parts: seq<Part>, order: seq<string>, m: map<string, string>)
    requires WellFormed(parts) && BraceFreeKeys(m) && Enumerates(order, m)
    requires forall k :: k in m ==> '{' !in m[k]
    ensures RenderInOrder(Flatten(parts), order, m) == Flatten(Fill(parts, m))
  {
    forall j, k | j in m && k in m
      ensures !Occurs(m[k], Placeholder(j)) && !Begins(m[k], Placeholder(j)) && !Suffixed(m[k], "{")
    {
      NoBraceNoPiece(m[k], Placeholder(j));
    }
    assert Independent(m);
    OrderIrrelevantIffIndependent(m);
  }

  lemma {:induction false} NoBraceNoPiece(s: string, p: string)
    requires '{' !in s && |p| > 1 && p[0] == '{'
    ensures !Occurs(s, p) && !Begins(s, p) && !Suffixed(s, "{")
    decreases |s|
  {
    EndsHold(s, p);
    EndsHold(s, "{");
    if s != "" {
      NoBraceNoPiece(s[1..], p);
    }
    forall n | 2 <= n < |p|
      ensures !Suffixed(s, p[..n])
    {
      EndsHold(s, p[..n]);
    }
  }

  lemma EndsHold(s: string, q: string)
    ensures q != "" && (Prefixed(s, q) || Suffixed(s, q)) ==> q[0] in s
  {
    if q != "" {
      if Prefixed(s, q) {
        assert s[..|q|][0] == s[0];
      }
      if Suffixed(s, q) {
        assert s[|s| - |q|..][0] == s[|s| - |q|];
      }
    }
  }

  /** Stray braces are enough: no value holds a placeholder here. */
  lemma {:induction false} StrayBracesMatter()
    ensures !Simultaneous(map["a" := "{{", "b" := "X", "c" := "}}"])
  {
    var m := map["a" := "{{", "b" := "X", "c" := "}}"];
    var p := Placeholder("b");
    assert m["a"] == p[..2] && Suffixed(m["a"], p[..2]);
    assert Begins(m["a"], p);
    OrderIrrelevantIffIndependent(m);
    assert CanForm(m, "b");
  }

  method RenderTemplate(template: string, variables: map<string, string>) returns (result: string)
    ensures exists order :: Enumerates(order, variables) && result == RenderInOrder(template, order, variables)
    ensures forall parts ::
      (WellFormed(parts) && Flatten(parts) == template && BraceFreeKeys(variables) && Independent(variables)) ==>
        result == Flatten(Fill(parts, variables))
  {
    result := template;
    ghost var order: seq<string> := [];
    var todo := variables.Keys;
    while todo != {}
      invariant todo <= variables.Keys
      invariant forall k :: k in order <==> k in variables.Keys - todo
      invariant forall i, j :: 0 <= i < j < |order| ==> order[i] != order[j]
      invariant result == RenderInOrder(template, order, variables)
      decreases todo
    {
      var key :| key in todo;
      result := ReplaceAll(result, Placeholder(key), variables[key]);
      assert (order + [key])[..|order|] == order;
      assert forall i :: 0 <= i < |order| ==> order[i] in order;
      order := order + [key];
      todo := todo - {key};
    }
    assert Enumerates(order, variables);
    forall parts
      | WellFormed(parts) && Flatten(parts) == template && BraceFreeKeys(variables) && Independent(variables)
      ensures result == Flatten(Fill(parts, variables))
    {
      OrderIrrelevantIffIndependent(variables);
    }
  }
}
