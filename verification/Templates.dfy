/** Property templates: where a placeholder stands in a text, what a text means when
    every placeholder is replaced, and when segments mean the same. */
module Templates {
  import opened Basics
  import opened Bytecode
  import opened UiTree

  const OPEN: u8 := 123
  const CLOSE: u8 := 125

  predicate NameStart(c: u8) {
    65 <= c <= 90 || 97 <= c <= 122 || c == 95
  }

  predicate NamePart(c: u8) {
    NameStart(c) || 48 <= c <= 57
  }

  // The first index from i on that does not hold a name character.
  function NameEnd(s: Bytes, i: nat): (r: nat)
    requires i <= |s|
    ensures i <= r <= |s|
    ensures forall k :: i <= k < r ==> NamePart(s[k])
    ensures r < |s| ==> !NamePart(s[r])
    decreases |s| - i
  {
    if i < |s| && NamePart(s[i]) then NameEnd(s, i + 1) else i
  }

  // A placeholder that opens at i: the index after its closing brace.
  function PlaceholderAt(s: Bytes, i: nat): (r: Option<nat>)
    requires i < |s|
    ensures r.Some? ==> i + 3 <= r.value <= |s| && s[i] == OPEN && s[r.value - 1] == CLOSE
  {
    if s[i] == OPEN && i + 1 < |s| && NameStart(s[i + 1]) then
      var j := NameEnd(s, i + 2);
      if j < |s| && s[j] == CLOSE then Some(j + 1) else None
    else None
  }

  function NameIn(s: Bytes, i: nat): Bytes
    requires i < |s| && PlaceholderAt(s, i).Some?
  {
    s[i + 1..PlaceholderAt(s, i).value - 1]
  }

  // What a placeholder matches: an opening brace, a name, a closing brace.
  lemma {:induction false} PlaceholderShape(s: Bytes, i: nat, e: nat)
    requires i < |s|
    ensures PlaceholderAt(s, i) == Some(e) <==>
      && i + 3 <= e <= |s| && s[i] == OPEN && s[e - 1] == CLOSE
      && NameStart(s[i + 1]) && forall k :: i + 1 <= k < e - 1 ==> NamePart(s[k])
  {
    if i + 3 <= e <= |s| && s[i] == OPEN && s[e - 1] == CLOSE && NameStart(s[i + 1])
       && forall k :: i + 1 <= k < e - 1 ==> NamePart(s[k])
    {
      var j := NameEnd(s, i + 2);
      assert !NamePart(CLOSE);
      assert j == e - 1;
    }
  }

  // The text from i on with every placeholder replaced, leftmost first.
  ghost function Substituted(s: Bytes, i: nat, f: Bytes -> Bytes): Bytes
    requires i <= |s|
    decreases |s| - i
  {
    if i == |s| then []
    else
      match PlaceholderAt(s, i)
      case Some(e) => f(NameIn(s, i)) + Substituted(s, e, f)
      case None => [s[i]] + Substituted(s, i + 1, f)
  }

  ghost function Substitute(s: Bytes, f: Bytes -> Bytes): Bytes {
    Substituted(s, 0, f)
  }

  function Braced(name: Bytes): Bytes {
    [OPEN] + name + [CLOSE]
  }

  lemma {:induction false} HoleSubstituted(s: Bytes, scan: nat, e: nat, f: Bytes -> Bytes)
    requires scan < |s| && PlaceholderAt(s, scan) == Some(e)
    ensures Substituted(s, scan, f) == f(NameIn(s, scan)) + Substituted(s, e, f)
  {
    hide PlaceholderAt, NameIn;
  }

  // Putting the braces back around every name restores the text.
  lemma {:induction false} BracedRestores(s: Bytes, i: nat)
    requires i <= |s|
    ensures Substituted(s, i, Braced) == s[i..]
    decreases |s| - i
  {
    hide PlaceholderAt, NameIn, Braced;
    if i == |s| {
    } else {
      var found := PlaceholderAt(s, i);
      if found.Some? {
        BracedRestores(s, found.value);
        HoleSubstituted(s, i, found.value, Braced);
        BracedHole(s, i, found.value);
      } else {
        BracedRestores(s, i + 1);
        assert [s[i]] + s[i + 1..] == s[i..];
      }
    }
  }

  lemma {:induction false} BracedHole(s: Bytes, i: nat, e: nat)
    requires i < |s| && PlaceholderAt(s, i) == Some(e)
    ensures Braced(NameIn(s, i)) + s[e..] == s[i..]
  {
    assert Braced(NameIn(s, i)) == s[i..e];
    hide PlaceholderAt, NameIn, Braced;
    assert s[i..e] + s[e..] == s[i..];
  }

  // -------- the one-pass split --------

  datatype Piece = Text(text: Bytes) | Hole(name: Bytes)

  // The pieces that are left when the split stands at position and has looked as far as
  // scan.
  function PiecesFrom(s: Bytes, position: nat, scan: nat): seq<Piece>
    requires position <= scan <= |s|
    decreases |s| - scan
  {
    if scan == |s| then TextBetween(s, position, scan)
    else
      match PlaceholderAt(s, scan)
      case Some(e) => TextBetween(s, position, scan) + [Hole(NameIn(s, scan))] + PiecesFrom(s, e, e)
      case None => PiecesFrom(s, position, scan + 1)
  }

  function TextBetween(s: Bytes, i: nat, j: nat): (r: seq<Piece>)
    requires i <= j <= |s|
  {
    if i < j then [Text(s[i..j])] else []
  }

  // An empty template is one empty text.
  function Pieces(s: Bytes): seq<Piece> {
    if s == [] then [Text(s)] else PiecesFrom(s, 0, 0)
  }

  ghost function Glue(ps: seq<Piece>, f: Bytes -> Bytes): Bytes {
    if ps == [] then []
    else (match ps[0] case Text(t) => t case Hole(n) => f(n)) + Glue(ps[1..], f)
  }

  lemma {:induction false} GlueConcat(a: seq<Piece>, b: seq<Piece>, f: Bytes -> Bytes)
    ensures Glue(a + b, f) == Glue(a, f) + Glue(b, f)
  {
    if a == [] {
      assert a + b == b;
    } else {
      assert (a + b)[1..] == a[1..] + b;
      GlueConcat(a[1..], b, f);
    }
  }

  lemma {:induction false} PiecesSayFrom(s: Bytes, position: nat, scan: nat, f: Bytes -> Bytes)
    requires position <= scan <= |s|
    ensures Glue(PiecesFrom(s, position, scan), f) == s[position..scan] + Substituted(s, scan, f)
    decreases |s| - scan
  {
    hide PlaceholderAt, NameIn, Glue, TextBetween;
    TextSays(s, position, scan, f);
    if scan == |s| {
    } else {
      var found := PlaceholderAt(s, scan);
      if found.Some? {
        PiecesSayFrom(s, found.value, found.value, f);
        HoleSays(s, position, scan, found.value, f);
      } else {
        PiecesSayFrom(s, position, scan + 1, f);
        CharSays(s, position, scan, f);
      }
    }
  }

  lemma {:induction false} CharSays(s: Bytes, position: nat, scan: nat, f: Bytes -> Bytes)
    requires position <= scan < |s| && PlaceholderAt(s, scan).None?
    ensures s[position..scan + 1] + Substituted(s, scan + 1, f) == s[position..scan] + Substituted(s, scan, f)
  {
    hide PlaceholderAt;
    assert s[position..scan + 1] == s[position..scan] + [s[scan]];
  }

  lemma {:induction false} TextSays(s: Bytes, i: nat, j: nat, f: Bytes -> Bytes)
    requires i <= j <= |s|
    ensures Glue(TextBetween(s, i, j), f) == s[i..j]
  {
    if i < j {
      assert [Text(s[i..j])][1..] == [];
    }
  }

  lemma {:induction false} HoleSays(s: Bytes, position: nat, scan: nat, e: nat, f: Bytes -> Bytes)
    requires position <= scan < e <= |s| && PlaceholderAt(s, scan) == Some(e)
    requires Glue(PiecesFrom(s, e, e), f) == s[e..e] + Substituted(s, e, f)
    ensures Glue(PiecesFrom(s, position, scan), f) == s[position..scan] + Substituted(s, scan, f)
  {
    hide PlaceholderAt, NameIn, TextBetween, Glue;
    var text, hole, rest := TextBetween(s, position, scan), [Hole(NameIn(s, scan))], PiecesFrom(s, e, e);
    TextSays(s, position, scan, f);
    HoleGlue(NameIn(s, scan), f);
    GlueConcat(text + hole, rest, f);
    GlueConcat(text, hole, f);
    HoleSubstituted(s, scan, e, f);
    hide Substituted;
    assert s[e..e] == [];
  }

  lemma {:induction false} HoleGlue(name: Bytes, f: Bytes -> Bytes)
    ensures Glue([Hole(name)], f) == f(name)
  {
    assert [Hole(name)][1..] == [];
  }

  // Whatever the states read, the pieces say what the template says.
  lemma {:induction false} PiecesSay(s: Bytes, f: Bytes -> Bytes)
    ensures Glue(Pieces(s), f) == Substitute(s, f)
  {
    if s != [] {
      PiecesSayFrom(s, 0, 0, f);
      assert s[0..0] == [];
    }
  }

  // The split is as coarse as it can be: no text is empty and no two texts are
  // neighbours, except that an empty template is one empty text.
  ghost predicate Coarse(ps: seq<Piece>) {
    && (forall k :: 0 <= k < |ps| ==> ps[k].Text? ==> ps[k].text != [])
    && forall k :: 0 < k < |ps| ==> ps[k - 1].Hole? || ps[k].Hole?
  }

  lemma {:induction false} PiecesCoarseFrom(s: Bytes, position: nat, scan: nat)
    requires position <= scan <= |s|
    ensures Coarse(PiecesFrom(s, position, scan))
    decreases |s| - scan
  {
    if scan == |s| {
    } else {
      match PlaceholderAt(s, scan)
      case Some(e) => PiecesCoarseFrom(s, e, e);
      case None => PiecesCoarseFrom(s, position, scan + 1);
    }
  }

  lemma {:induction false} PiecesCoarse(s: Bytes)
    ensures Pieces(s) != [] && (s != [] ==> Coarse(Pieces(s)))
    ensures Glue(Pieces(s), Braced) == s
  {
    PiecesSay(s, Braced);
    BracedRestores(s, 0);
    assert s[0..] == s;
    if s != [] {
      PiecesCoarseFrom(s, 0, 0);
    }
  }

  // The literal texts of the pieces, in order.
  function TextsOf(ps: seq<Piece>): seq<Bytes> {
    if ps == [] then [] else (if ps[0].Text? then [ps[0].text] else []) + TextsOf(ps[1..])
  }

  lemma {:induction false} TextsConcat(a: seq<Piece>, b: seq<Piece>)
    ensures TextsOf(a + b) == TextsOf(a) + TextsOf(b)
  {
    if a == [] {
      assert a + b == b;
    } else {
      assert (a + b)[1..] == a[1..] + b;
      TextsConcat(a[1..], b);
    }
  }

  // Every placeholder of the text names a known state.
  predicate HolesKnown(names: seq<Bytes>, ps: seq<Piece>) {
    forall k | 0 <= k < |ps| :: ps[k].Hole? ==> ps[k].name in names
  }

  predicate NamesKnown(names: seq<Bytes>, template: Bytes) {
    HolesKnown(names, Pieces(template))
  }

  // -------- segments --------

  predicate Named(names: seq<Bytes>, k: nat, name: Bytes) {
    k < |names| && names[k] == name
  }

  // A segment stands for a piece: the text's index in the pool, the state's in its table.
  predicate Stands(names: seq<Bytes>, pool: seq<Bytes>, p: Piece, g: Segment) {
    match p
    case Text(t) => g.ConstantText? && Named(pool, g.index, t)
    case Hole(n) => g.StateText? && Named(names, g.index, n)
  }

  ghost predicate SegmentsAre(names: seq<Bytes>, pool: seq<Bytes>, ps: seq<Piece>, gs: seq<Segment>) {
    |gs| == |ps| && forall k :: 0 <= k < |ps| ==> Stands(names, pool, ps[k], gs[k])
  }

  // The segments of a template: its pieces, one by one.
  ghost predicate TemplateMeans(names: seq<Bytes>, pool: seq<Bytes>, template: Bytes, gs: seq<Segment>) {
    SegmentsAre(names, pool, Pieces(template), gs)
  }

  // Strings interned later do not change what earlier segments stand for.
  lemma {:induction false} SegmentsStay(names: seq<Bytes>, pool: seq<Bytes>, larger: seq<Bytes>, ps: seq<Piece>,
      gs: seq<Segment>)
    requires SegmentsAre(names, pool, ps, gs) && pool <= larger
    ensures SegmentsAre(names, larger, ps, gs)
  {
    forall k | 0 <= k < |ps| ensures Stands(names, larger, ps[k], gs[k]) {
      assert Stands(names, pool, ps[k], gs[k]);
    }
  }

  predicate Indexed(names: seq<Bytes>, pool: seq<Bytes>, g: Segment) {
    match g
    case ConstantText(i) => i < |pool|
    case StateText(i) => i < |names|
  }

  predicate AllIndexed(names: seq<Bytes>, pool: seq<Bytes>, gs: seq<Segment>) {
    forall k | 0 <= k < |gs| :: Indexed(names, pool, gs[k])
  }

  // What segments say when the named state reads f(name).
  ghost function Expand(names: seq<Bytes>, pool: seq<Bytes>, gs: seq<Segment>, f: Bytes -> Bytes): Bytes
    requires AllIndexed(names, pool, gs)
  {
    if gs == [] then []
    else
      assert Indexed(names, pool, gs[0]);
      (match gs[0] case ConstantText(i) => pool[i] case StateText(i) => f(names[i]))
      + Expand(names, pool, gs[1..], f)
  }

  lemma {:induction false} SegmentsSay(names: seq<Bytes>, pool: seq<Bytes>, ps: seq<Piece>, gs: seq<Segment>,
      f: Bytes -> Bytes)
    requires SegmentsAre(names, pool, ps, gs)
    ensures AllIndexed(names, pool, gs) && Expand(names, pool, gs, f) == Glue(ps, f)
  {
    forall k | 0 <= k < |gs| ensures Indexed(names, pool, gs[k]) {
      assert Stands(names, pool, ps[k], gs[k]);
    }
    if gs == [] {
    } else {
      assert Stands(names, pool, ps[0], gs[0]);
      SegmentsSay(names, pool, ps[1..], gs[1..], f);
    }
  }

  // The segments say what the template says, whatever the states read.
  lemma {:induction false} TemplateSays(names: seq<Bytes>, pool: seq<Bytes>, template: Bytes, gs: seq<Segment>,
      f: Bytes -> Bytes)
    requires TemplateMeans(names, pool, template, gs)
    ensures |gs| > 0 && AllIndexed(names, pool, gs)
    ensures Expand(names, pool, gs, f) == Substitute(template, f)
  {
    SegmentsSay(names, pool, Pieces(template), gs, f);
    PiecesSay(template, f);
    PiecesCoarse(template);
  }

  // Gluing the segments back gives the template.
  lemma {:induction false} GluedBack(names: seq<Bytes>, pool: seq<Bytes>, template: Bytes, gs: seq<Segment>)
    requires TemplateMeans(names, pool, template, gs)
    ensures AllIndexed(names, pool, gs) && Expand(names, pool, gs, Braced) == template
  {
    TemplateSays(names, pool, template, gs, Braced);
    BracedRestores(template, 0);
    assert template[0..] == template;
  }

  // Under duplicate-free tables a template has one list of segments.
  lemma {:induction false} SegmentsUnique(names: seq<Bytes>, pool: seq<Bytes>, ps: seq<Piece>, a: seq<Segment>,
      b: seq<Segment>)
    requires Distinct(names) && Distinct(pool) && SegmentsAre(names, pool, ps, a) && SegmentsAre(names, pool, ps, b)
    ensures a == b
  {
    forall k | 0 <= k < |ps| ensures a[k] == b[k] {
      assert Stands(names, pool, ps[k], a[k]) && Stands(names, pool, ps[k], b[k]);
    }
  }

  // The index of a name, which the compiler's dictionaries hold.
  function NameIndex(names: seq<Bytes>, name: Bytes): (r: Option<nat>)
    ensures r.Some? ==> r.value < |names| && names[r.value] == name
    ensures r.None? <==> name !in names
    decreases |names|
  {
    if names == [] then None
    else if names[|names| - 1] == name then Some(|names| - 1)
    else NameIndex(names[..|names| - 1], name)
  }

  // The text a state shows under its name.
  ghost function ShownState(names: seq<Bytes>, state: seq<Value>, name: Bytes): Bytes
    requires |state| == |names|
  {
    match NameIndex(names, name)
    case None => Braced(name)
    case Some(i) => TextOf(state[i])
  }

  lemma {:induction false} EvaluateExpands(m: Module, names: seq<Bytes>, state: seq<Value>, gs: seq<Segment>)
    requires Distinct(names) && |state| == |names| && AllIndexed(names, m.constants, gs)
    ensures forall i :: 0 <= i < |gs| ==> InRange(m, state, gs[i])
    ensures Evaluate(m, state, gs) == Expand(names, m.constants, gs, n => ShownState(names, state, n))
  {
    assert forall i :: 0 <= i < |gs| ==> Indexed(names, m.constants, gs[i]);
    if gs == [] {
    } else {
      EvaluateExpands(m, names, state, gs[1..]);
      if gs[0].StateText? {
        var i := NameIndex(names, names[gs[0].index]).value;
        assert names[i] == names[gs[0].index];
      }
    }
  }

  // Rendering a compiled property shows the template with each state's text in place.
  lemma {:induction false} RenderedTemplate(m: Module, names: seq<Bytes>, state: seq<Value>, template: Bytes,
      gs: seq<Segment>)
    requires Distinct(names) && |state| == |names| && TemplateMeans(names, m.constants, template, gs)
    ensures forall i :: 0 <= i < |gs| ==> InRange(m, state, gs[i])
    ensures Evaluate(m, state, gs) == Substitute(template, n => ShownState(names, state, n))
  {
    var f := n => ShownState(names, state, n);
    TemplateSays(names, m.constants, template, gs, f);
    EvaluateExpands(m, names, state, gs);
  }
}
