/** Placeholder substitution in e-mail templates: each `{{key}}` of the data is
    replaced, key after key, by a global left-to-right replace. The file read is
    not modelled; the template text is an input. */
module Template {
  import opened Text

  /** The text `{{key}}` the pattern for `key` matches. Keys are identifiers, so
      the pattern has no regular-expression metacharacters besides the braces,
      which JavaScript reads literally here. */
  function Placeholder(key: string): (p: string)
    ensures |p| == |key| + 4 && p[0] == '{' && p[1] == '{'
    ensures p[2..2 + |key|] == key && p[|key| + 2] == '}' && p[|key| + 3] == '}'
  {
    "{{" + key + "}}"
  }

  /** `s.replace(/p/g, v)`: scan from the left; at a match, emit `v` and resume
      after the match; otherwise keep one character and move on. */
  function ReplaceAll(s: string, p: string, v: string): string
    requires p != []
    decreases |s|
  {
    if |s| < |p| then s
    else if s[..|p|] == p then v + ReplaceAll(s[|p|..], p, v)
    else [s[0]] + ReplaceAll(s[1..], p, v)
  }

  /** Text without an occurrence of the pattern comes back unchanged. */
  lemma {:induction false} ReplaceAbsent(s: string, p: string, v: string)
    requires p != [] && forall i :: !OccursAt(s, p, i)
    ensures ReplaceAll(s, p, v) == s
    decreases |s|
  {
    if |s| >= |p| {
      assert !OccursAt(s, p, 0);
      assert forall i :: OccursAt(s[1..], p, i) ==> OccursAt(s, p, i + 1) by {
        forall i | OccursAt(s[1..], p, i)
          ensures OccursAt(s, p, i + 1)
        {
          assert s[1..][i..i + |p|] == s[i + 1..i + 1 + |p|];
        }
      }
      ReplaceAbsent(s[1..], p, v);
      assert s == [s[0]] + s[1..];
    }
  }

  /** A prefix where no match starts is copied through. */
  lemma {:induction false} ReplaceSkip(t: string, rest: string, p: string, v: string)
    requires p != []
    requires forall i :: 0 <= i < |t| ==> !OccursAt(t + rest, p, i)
    ensures ReplaceAll(t + rest, p, v) == t + ReplaceAll(rest, p, v)
    decreases |t|
  {
    var s := t + rest;
    if t == [] {
      assert s == rest;
    } else if |s| < |p| {
      assert ReplaceAll(rest, p, v) == rest;
    } else {
      assert !OccursAt(s, p, 0);
      assert s[1..] == t[1..] + rest;
      forall i | 0 <= i < |t[1..]|
        ensures !OccursAt(t[1..] + rest, p, i)
      {
        assert !OccursAt(s, p, i + 1);
        if i + |p| <= |s[1..]| {
          assert s[1..][i..i + |p|] == s[i + 1..i + 1 + |p|];
        }
      }
      ReplaceSkip(t[1..], rest, p, v);
      assert s[0] == t[0];
      assert t == [t[0]] + t[1..];
    }
  }

  /** A placeholder at the front is replaced and the scan resumes after it. */
  lemma ReplaceHit(key: string, rest: string, v: string)
    ensures ReplaceAll(Placeholder(key) + rest, Placeholder(key), v)
            == v + ReplaceAll(rest, Placeholder(key), v)
  {
    var p := Placeholder(key);
    assert (p + rest)[..|p|] == p;
    assert (p + rest)[|p|..] == rest;
  }

  /** `loadTemplate`: the data's entries in order, each replacing every
      occurrence of its placeholder in the text produced so far. */
  function Substitute(html: string, data: seq<(string, string)>): string
    decreases |data|
  {
    if data == [] then html
    else Substitute(ReplaceAll(html, Placeholder(data[0].0), data[0].1), data[1..])
  }

  /** A template mentioning none of the data's placeholders is returned as is. */
  lemma {:induction false} SubstituteNoPlaceholders(html: string, data: seq<(string, string)>)
    requires forall j, i :: 0 <= j < |data| ==> !OccursAt(html, Placeholder(data[j].0), i)
    ensures Substitute(html, data) == html
    decreases |data|
  {
    if data != [] {
      ReplaceAbsent(html, Placeholder(data[0].0), data[0].1);
      assert forall j, i :: 0 <= j < |data[1..]| ==> !OccursAt(html, Placeholder(data[1..][j].0), i) by {
        forall j, i | 0 <= j < |data[1..]|
          ensures !OccursAt(html, Placeholder(data[1..][j].0), i)
        {
          assert data[1..][j] == data[j + 1];
        }
      }
      SubstituteNoPlaceholders(html, data[1..]);
    }
  }

  // ---------------------------------------------------------------------------
  // Templates as literal text and placeholders
  // ---------------------------------------------------------------------------

  /** A template read as a sequence of literal text and `{{key}}` holes. */
  datatype Segment = Lit(text: string) | Hole(key: string)

  /** Text in which no placeholder can start, even with more text after it: every
      '{' is followed, within the text, by a character other than '{'. Single
      braces, as in a style sheet's rules, are allowed. */
  predicate Inert(s: string) {
    forall i :: 0 <= i < |s| && s[i] == '{' ==> i + 1 < |s| && s[i + 1] != '{'
  }

  predicate Braceless(s: string) {
    forall i :: 0 <= i < |s| ==> s[i] != '{' && s[i] != '}'
  }

  /** A style-sheet rule, brace-free text followed by a braced brace-free body, is
      inert: literal text may carry such rules. */
  lemma StyleRuleInert(selector: string, body: string)
    requires Braceless(selector) && Braceless(body) && body != []
    ensures Inert(selector + "{" + body + "}")
  {
    var s := selector + "{" + body + "}";
    forall i | 0 <= i < |s| && s[i] == '{'
      ensures i + 1 < |s| && s[i + 1] != '{'
    {
      if i == |selector| {
        assert s[i + 1] == body[0];
      }
    }
  }

  /** Literal text is inert and keys carry no brace at all. */
  predicate WellFormed(segs: seq<Segment>) {
    forall i :: 0 <= i < |segs| ==>
      (segs[i].Lit? ==> Inert(segs[i].text)) && (segs[i].Hole? ==> Braceless(segs[i].key))
  }

  predicate ValuesInert(m: map<string, string>) {
    forall k :: k in m ==> Inert(m[k])
  }

  /** A template with the keys in `m` filled in and every other hole left as its
      placeholder. */
  function Render(segs: seq<Segment>, m: map<string, string>): (s: string)
    decreases |segs|
  {
    if segs == [] then [] else Piece(segs[0], m) + Render(segs[1..], m)
  }

  function Piece(seg: Segment, m: map<string, string>): string {
    match seg
    case Lit(t) => t
    case Hole(k) => if k in m then m[k] else Placeholder(k)
  }

  /** No match of `{{key}}` starts inside an inert piece, or inside the
      placeholder of a different brace-free key. */
  lemma PieceNoMatch(piece: string, rest: string, key: string)
    requires Braceless(key)
    requires Inert(piece) || exists other :: piece == Placeholder(other) && other != key && Braceless(other)
    ensures forall i :: 0 <= i < |piece| ==> !OccursAt(piece + rest, Placeholder(key), i)
  {
    var s := piece + rest;
    var p := Placeholder(key);
    forall i | 0 <= i < |piece|
      ensures !OccursAt(s, p, i)
    {
      if OccursAt(s, p, i) {
        assert s[i] == p[0] && s[i + 1] == p[1] by {
          assert s[i..i + |p|][0] == s[i] && s[i..i + |p|][1] == s[i + 1];
        }
        if !Inert(piece) {
          var other :| piece == Placeholder(other) && other != key && Braceless(other);
          PlaceholderMismatch(other, key, rest, i);
        }
      }
    }
  }

  /** The placeholder of `other`, followed by anything, holds no match of `key`'s
      placeholder starting inside it. */
  lemma PlaceholderMismatch(other: string, key: string, rest: string, i: nat)
    requires Braceless(other) && Braceless(key) && other != key
    requires i < |Placeholder(other)|
    ensures !OccursAt(Placeholder(other) + rest, Placeholder(key), i)
  {
    var q := Placeholder(other);
    var s := q + rest;
    var p := Placeholder(key);
    if i >= 2 {
      if i < |other| + 2 {
        assert s[i] == other[i - 2];
      }
      Mismatch(s, p, i, 0);
    } else if i == 1 {
      if |other| > 0 {
        assert s[2] == other[0];
      }
      Mismatch(s, p, 1, 1);
    } else if |other| < |key| {
      Mismatch(s, p, 0, 2 + |other|);
    } else if |other| > |key| {
      assert s[2 + |key|] == other[|key|];
      Mismatch(s, p, 0, 2 + |key|);
    } else {
      var j :| 0 <= j < |key| && other[j] != key[j];
      assert s[2 + j] == other[j];
      Mismatch(s, p, 0, 2 + j);
    }
  }

  /** One differing character rules out a match. */
  lemma Mismatch(s: string, p: string, i: nat, j: nat)
    requires j < |p| && i + j < |s| && s[i + j] != p[j]
    ensures !OccursAt(s, p, i)
  {
    if i + |p| <= |s| {
      assert s[i..i + |p|][j] == s[i + j];
    }
  }

  /** Replacing `key`'s placeholder in a rendered template fills in the holes of
      `key`, provided `key` was not filled already; a key filled already has no
      placeholder left and nothing changes. */
  lemma {:induction false} ReplaceRendered(segs: seq<Segment>, m: map<string, string>, key: string, v: string)
    requires WellFormed(segs) && ValuesInert(m) && Braceless(key) && Inert(v)
    ensures ReplaceAll(Render(segs, m), Placeholder(key), v)
            == Render(segs, if key in m then m else m[key := v])
    decreases |segs|
  {
    var p := Placeholder(key);
    var m' := if key in m then m else m[key := v];
    if segs == [] {
    } else {
      var piece := Piece(segs[0], m);
      var rest := Render(segs[1..], m);
      assert WellFormed(segs[1..]) by {
        assert forall i :: 0 <= i < |segs[1..]| ==> segs[1..][i] == segs[i + 1];
      }
      ReplaceRendered(segs[1..], m, key, v);
      assert segs == [segs[0]] + segs[1..];
      match segs[0]
      case Lit(t) =>
        PieceNoMatch(piece, rest, key);
        ReplaceSkip(piece, rest, p, v);
      case Hole(k) =>
        if k in m {
          PieceNoMatch(piece, rest, key);
          ReplaceSkip(piece, rest, p, v);
        } else if k != key {
          PieceNoMatch(piece, rest, key);
          ReplaceSkip(piece, rest, p, v);
        } else {
          ReplaceHit(key, rest, v);
        }
    }
  }

  /** The data entries as a map, an earlier entry winning over a later one. */
  function Bind(m: map<string, string>, data: seq<(string, string)>): (r: map<string, string>)
    ensures m.Keys <= r.Keys
    ensures forall k :: k in m ==> r[k] == m[k]
    decreases |data|
  {
    if data == [] then m
    else Bind(if data[0].0 in m then m else m[data[0].0 := data[0].1], data[1..])
  }

  predicate DataInert(data: seq<(string, string)>) {
    forall j :: 0 <= j < |data| ==> Braceless(data[j].0) && Inert(data[j].1)
  }

  /** Substitution renders the template: the data's holes hold their values and the
      other holes keep their placeholders. */
  lemma {:induction false} SubstituteRenders(segs: seq<Segment>, m: map<string, string>, data: seq<(string, string)>)
    requires WellFormed(segs) && ValuesInert(m) && DataInert(data)
    ensures Substitute(Render(segs, m), data) == Render(segs, Bind(m, data))
    decreases |data|
  {
    if data != [] {
      var (k, v) := data[0];
      ReplaceRendered(segs, m, k, v);
      var m' := if k in m then m else m[k := v];
      assert DataInert(data[1..]) by {
        assert forall j :: 0 <= j < |data[1..]| ==> data[1..][j] == data[j + 1];
      }
      assert DataInert(data) ==> Braceless(data[0].0) && Inert(data[0].1);
      SubstituteRenders(segs, m', data[1..]);
    }
  }

  /** After rendering, the placeholder of a filled key occurs nowhere. */
  lemma {:induction false} FilledKeyGone(segs: seq<Segment>, m: map<string, string>, key: string)
    requires WellFormed(segs) && ValuesInert(m) && Braceless(key) && key in m
    ensures forall i :: !OccursAt(Render(segs, m), Placeholder(key), i)
    decreases |segs|
  {
    if segs != [] {
      var piece := Piece(segs[0], m);
      var rest := Render(segs[1..], m);
      var p := Placeholder(key);
      assert WellFormed(segs[1..]) by {
        assert forall i :: 0 <= i < |segs[1..]| ==> segs[1..][i] == segs[i + 1];
      }
      FilledKeyGone(segs[1..], m, key);
      PieceNoMatch(piece, rest, key);
      forall i | |piece| <= i
        ensures !OccursAt(piece + rest, p, i)
      {
        if OccursAt(piece + rest, p, i) {
          assert (piece + rest)[i..i + |p|] == rest[i - |piece|..i - |piece| + |p|];
          assert OccursAt(rest, p, i - |piece|);
        }
      }
    }
  }

  /** Without the assumption that literal text is inert, a filled key can leave
      its own placeholder behind: `{{{{a}}}}` with `a` bound to `a` becomes
      `{{a}}`. */
  lemma NestedBracesLeavePlaceholder()
    ensures Substitute("{{{{a}}}}", [("a", "a")]) == "{{a}}"
  {
    var p := Placeholder("a");
    assert p == "{{a}}";
    var s := "{{{{a}}}}";
    assert s[..5] != p;
    assert s[1..][..5] != p;
    assert s[2..][..5] == p;
    assert ReplaceAll(s[2..][5..], p, "a") == "}}";
    assert ReplaceAll(s[2..], p, "a") == "a}}";
    assert ReplaceAll(s[1..], p, "a") == "{a}}";
  }
}
