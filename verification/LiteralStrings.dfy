/** scripts/check_provenance_fields.py, `_literal_string`: the text that an expression has in
    a table of named expressions, and what such a table means. */
module LiteralStrings {
  import opened Results

  // ------------------------------------------------------------------------ expressions

  /** The node shapes that `_literal_string` distinguishes. */
  datatype Node =
    | Str(text: string)
    | Int(digits: nat)
    | Name(id: string)
    | Add(left: Node, right: Node)
    | Joined(pieces: seq<Piece>)
    | Other

  /** Parts of an f-string; conversions and format specifications are ignored by the code. */
  datatype Piece = Text(s: string) | Formatted(node: Node) | Unsupported

  type Context = map<string, Node>

  function Decimal(n: nat): string {
    if n < 10 then [('0' as int + n) as char]
    else Decimal(n / 10) + [('0' as int + n % 10) as char]
  }

  function Concat(a: Option<string>, b: Option<string>): Option<string> {
    if a.Some? && b.Some? then Some(a.value + b.value) else None
  }

  /** `_literal_string`: names are followed through the context, but never through a name
      that is already being followed. */
  function LiteralString(node: Node, context: Context, seen: set<string>): Option<string>
    decreases |context.Keys - seen|, node, 1, 0
  {
    match node
    case Str(s) => Some(s)
    case Int(n) => Some(Decimal(n))
    case Name(id) =>
      if id in context && id !in seen then
        SmallerRest(context.Keys, seen, id);
        LiteralString(context[id], context, seen + {id})
      else None
    case Add(l, r) => Concat(LiteralString(l, context, seen), LiteralString(r, context, seen))
    case Joined(_) => LiteralPieces(node, 0, context, seen)
    case Other => None
  }

  function LiteralPieces(joined: Node, i: nat, context: Context, seen: set<string>): Option<string>
    requires joined.Joined? && i <= |joined.pieces|
    decreases |context.Keys - seen|, joined, 0, |joined.pieces| - i
  {
    if i == |joined.pieces| then Some("")
    else
      var head := match joined.pieces[i]
        case Text(s) => Some(s)
        case Formatted(n) => LiteralString(n, context, seen)
        case Unsupported => None;
      Concat(head, LiteralPieces(joined, i + 1, context, seen))
  }

  lemma SmallerRest(keys: set<string>, seen: set<string>, id: string)
    requires id in keys && id !in seen
    ensures |keys - (seen + {id})| < |keys - seen|
  {
    assert keys - seen == (keys - (seen + {id})) + {id};
  }

  // ------------------------------------------------- what the expressions of a table mean

  type Valuation = map<string, string>

  ghost predicate Below(a: Valuation, b: Valuation) {
    forall x :: x in a ==> x in b && b[x] == a[x]
  }

  lemma BelowEmpty(b: Valuation)
    ensures Below(map[], b)
  {
  }

  /** The value of an expression when its names have the given values. */
  function Eval(node: Node, names: Valuation): Option<string>
    decreases node, 1, 0
  {
    match node
    case Str(s) => Some(s)
    case Int(n) => Some(Decimal(n))
    case Name(id) => if id in names then Some(names[id]) else None
    case Add(l, r) => Concat(Eval(l, names), Eval(r, names))
    case Joined(_) => EvalPieces(node, 0, names)
    case Other => None
  }

  function EvalPieces(joined: Node, i: nat, names: Valuation): Option<string>
    requires joined.Joined? && i <= |joined.pieces|
    decreases joined, 0, |joined.pieces| - i
  {
    if i == |joined.pieces| then Some("")
    else
      var head := match joined.pieces[i]
        case Text(s) => Some(s)
        case Formatted(n) => Eval(n, names)
        case Unsupported => None;
      Concat(head, EvalPieces(joined, i + 1, names))
  }

  lemma {:induction false} EvalMonotone(node: Node, a: Valuation, b: Valuation)
    requires Below(a, b) && Eval(node, a).Some?
    ensures Eval(node, b) == Eval(node, a)
    decreases node, 1, 0
  {
    match node
    case Add(l, r) =>
      EvalMonotone(l, a, b);
      EvalMonotone(r, a, b);
    case Joined(_) => EvalPiecesMonotone(node, 0, a, b);
    case _ =>
  }

  lemma {:induction false} EvalPiecesMonotone(joined: Node, i: nat, a: Valuation, b: Valuation)
    requires joined.Joined? && i <= |joined.pieces|
    requires Below(a, b) && EvalPieces(joined, i, a).Some?
    ensures EvalPieces(joined, i, b) == EvalPieces(joined, i, a)
    decreases joined, 0, |joined.pieces| - i
  {
    if i < |joined.pieces| {
      match joined.pieces[i] {
        case Formatted(n) => EvalMonotone(n, a, b);
        case _ =>
      }
      EvalPiecesMonotone(joined, i + 1, a, b);
    }
  }

  /** The names of a table that have a value after following at most k names. */
  function Known(context: Context, k: nat): Valuation {
    if k == 0 then map[] else Step(context, Known(context, k - 1))
  }

  function Step(context: Context, names: Valuation): Valuation {
    map id | id in context && Eval(context[id], names).Some? :: Eval(context[id], names).value
  }

  /** The well-founded values of a table: what its names mean. */
  function Meaning(context: Context): Valuation {
    Known(context, |context|)
  }

  lemma {:induction false} KnownGrows(context: Context, j: nat, k: nat)
    requires j <= k
    ensures Below(Known(context, j), Known(context, k))
  {
    if j > 0 {
      KnownGrows(context, j - 1, k - 1);
      forall id | id in Known(context, j)
        ensures id in Known(context, k) && Known(context, k)[id] == Known(context, j)[id]
      {
        EvalMonotone(context[id], Known(context, j - 1), Known(context, k - 1));
      }
    }
  }

  // ------------------------------------------- following names agrees with the meaning

  lemma {:induction false} LiteralSound(node: Node, context: Context, seen: set<string>)
    requires LiteralString(node, context, seen).Some?
    ensures Eval(node, Known(context, |context.Keys - seen|)) == LiteralString(node, context, seen)
    decreases |context.Keys - seen|, node, 1, 0
  {
    match node
    case Name(id) =>
      SmallerRest(context.Keys, seen, id);
      var j, k := |context.Keys - (seen + {id})|, |context.Keys - seen|;
      LiteralSound(context[id], context, seen + {id});
      KnownGrows(context, j, k - 1);
      EvalMonotone(context[id], Known(context, j), Known(context, k - 1));
    case Add(l, r) =>
      LiteralSound(l, context, seen);
      LiteralSound(r, context, seen);
    case Joined(_) => LiteralPiecesSound(node, 0, context, seen);
    case _ =>
  }

  lemma {:induction false} LiteralPiecesSound(joined: Node, i: nat, context: Context, seen: set<string>)
    requires joined.Joined? && i <= |joined.pieces|
    requires LiteralPieces(joined, i, context, seen).Some?
    ensures EvalPieces(joined, i, Known(context, |context.Keys - seen|)) == LiteralPieces(joined, i, context, seen)
    decreases |context.Keys - seen|, joined, 0, |joined.pieces| - i
  {
    if i < |joined.pieces| {
      match joined.pieces[i] {
        case Formatted(n) => LiteralSound(n, context, seen);
        case _ =>
      }
      LiteralPiecesSound(joined, i + 1, context, seen);
    }
  }

  lemma {:induction false} FirstKnown(context: Context, id: string, k: nat) returns (j: nat)
    requires id in Known(context, k)
    ensures j < k && id !in Known(context, j) && id in context
    ensures Eval(context[id], Known(context, j)) == Some(Known(context, k)[id])
  {
    if id in Known(context, k - 1) {
      KnownGrows(context, k - 1, k);
      j := FirstKnown(context, id, k - 1);
    } else {
      j := k - 1;
    }
  }

  /** `seen` never blocks a name that has a value: whatever is being followed has none at
      this depth. */
  lemma {:induction false} LiteralComplete(node: Node, context: Context, seen: set<string>, k: nat)
    requires Eval(node, Known(context, k)).Some? && seen !! Known(context, k).Keys
    ensures LiteralString(node, context, seen) == Eval(node, Known(context, k))
    decreases k, node, 1, 0
  {
    match node
    case Name(id) =>
      var j := FirstKnown(context, id, k);
      KnownGrows(context, j, k);
      forall x | x in seen ensures x !in Known(context, j) {
        assert x !in Known(context, k).Keys;
      }
      LiteralComplete(context[id], context, seen + {id}, j);
    case Add(l, r) =>
      LiteralComplete(l, context, seen, k);
      LiteralComplete(r, context, seen, k);
    case Joined(_) => LiteralPiecesComplete(node, 0, context, seen, k);
    case _ =>
  }

  lemma {:induction false} LiteralPiecesComplete(joined: Node, i: nat, context: Context, seen: set<string>, k: nat)
    requires joined.Joined? && i <= |joined.pieces|
    requires EvalPieces(joined, i, Known(context, k)).Some? && seen !! Known(context, k).Keys
    ensures LiteralPieces(joined, i, context, seen) == EvalPieces(joined, i, Known(context, k))
    decreases k, joined, 0, |joined.pieces| - i
  {
    if i < |joined.pieces| {
      match joined.pieces[i] {
        case Formatted(n) => LiteralComplete(n, context, seen, k);
        case _ =>
      }
      LiteralPiecesComplete(joined, i + 1, context, seen, k);
    }
  }

  /** Following names with the `seen` guard computes exactly the well-founded meaning. */
  lemma LiteralIsMeaning(node: Node, context: Context)
    ensures LiteralString(node, context, {}) == Eval(node, Meaning(context))
  {
    assert context.Keys - {} == context.Keys;
    if LiteralString(node, context, {}).Some? {
      LiteralSound(node, context, {});
    }
    if Eval(node, Meaning(context)).Some? {
      LiteralComplete(node, context, {}, |context|);
    }
  }

  /** The meaning is a fixed point of its table and contains every finite approximation. */
  lemma MeaningIsFixedPoint(context: Context)
    ensures forall k: nat :: Below(Known(context, k), Meaning(context))
    ensures forall id :: id in context ==>
      (id in Meaning(context) <==> Eval(context[id], Meaning(context)).Some?)
    ensures forall id :: id in Meaning(context) ==>
      id in context && Eval(context[id], Meaning(context)) == Some(Meaning(context)[id])
  {
    forall k: nat ensures Below(Known(context, k), Meaning(context)) {
      forall id | id in Known(context, k)
        ensures id in Meaning(context) && Meaning(context)[id] == Known(context, k)[id]
      {
        LiteralComplete(Name(id), context, {}, k);
        LiteralIsMeaning(Name(id), context);
      }
    }
    var n := |context|;
    assert Below(Known(context, n + 1), Meaning(context));
    KnownGrows(context, n, n + 1);
  }

  /** A larger table means more. */
  lemma {:induction false} MeaningMonotone(a: Context, b: Context, k: nat)
    requires forall id :: id in a ==> id in b && b[id] == a[id]
    ensures Below(Known(a, k), Meaning(b))
  {
    if k > 0 {
      MeaningMonotone(a, b, k - 1);
      MeaningIsFixedPoint(b);
      forall id | id in Known(a, k) ensures id in Meaning(b) && Meaning(b)[id] == Known(a, k)[id] {
        EvalMonotone(a[id], Known(a, k - 1), Meaning(b));
      }
    }
  }

  /** An entry is as in the base table or has been replaced by its value. */
  ghost predicate CollapsedAt(c: Context, base: Context, id: string) {
    && id in c && id in base
    && (c[id] == base[id] || (id in Meaning(base) && c[id] == Str(Meaning(base)[id])))
  }

  /** The table that a pass has reached when it started with `base`. */
  ghost predicate Collapsed(c: Context, base: Context) {
    && c.Keys == base.Keys
    && forall id :: id in c ==> CollapsedAt(c, base, id)
  }

  lemma {:induction false} CollapsedMeansNoMore(c: Context, base: Context, k: nat)
    requires Collapsed(c, base)
    ensures Below(Known(c, k), Meaning(base))
  {
    if k > 0 {
      CollapsedMeansNoMore(c, base, k - 1);
      MeaningIsFixedPoint(base);
      forall id | id in Known(c, k) ensures id in Meaning(base) && Meaning(base)[id] == Known(c, k)[id] {
        EvalMonotone(c[id], Known(c, k - 1), Meaning(base));
      }
    }
  }

  lemma {:induction false} CollapsedMeansNoLess(c: Context, base: Context, k: nat)
    requires Collapsed(c, base)
    ensures Below(Known(base, k), Meaning(c))
  {
    hide Below, Step, Collapsed, Meaning, Eval;
    BelowEmpty(Meaning(c));
    if k > 0 {
      CollapsedMeansNoLess(c, base, k - 1);
      MeaningIsFixedPoint(c);
      MeaningIsFixedPoint(base);
      assert Below(Known(base, k), Meaning(base));
      CollapsedStep(c, base, Known(base, k - 1));
    }
  }

  lemma CollapsedStep(c: Context, base: Context, before: Valuation)
    requires Collapsed(c, base) && Below(before, Meaning(c))
    requires Below(Step(base, before), Meaning(base))
    requires forall id :: id in c && Eval(c[id], Meaning(c)).Some? ==>
      id in Meaning(c) && Eval(c[id], Meaning(c)) == Some(Meaning(c)[id])
    ensures Below(Step(base, before), Meaning(c))
  {
    hide Known, Meaning;
    forall id | id in Step(base, before) ensures id in Meaning(c) && Meaning(c)[id] == Step(base, before)[id] {
      EvalMonotone(base[id], before, Meaning(c));
    }
  }

  /** Replacing names by their values while a pass runs changes no result of that pass. */
  lemma CollapsedSameMeaning(c: Context, base: Context)
    requires Collapsed(c, base)
    ensures Meaning(c) == Meaning(base)
  {
    CollapsedMeansNoMore(c, base, |c|);
    CollapsedMeansNoLess(c, base, |base|);
  }

  lemma CollapseEntry(c: Context, base: Context, id: string, v: string)
    requires Collapsed(c, base) && id in base && Eval(base[id], Meaning(base)) == Some(v)
    ensures Collapsed(c[id := Str(v)], base)
  {
    hide Meaning, Eval;
    MeaningIsFixedPoint(base);
  }

  // --------------------------------------------------------------- texts of the expressions

  function DigitValue(c: char): int {
    c as int - '0' as int
  }

  /** The number that a decimal numeral stands for. */
  function Numeral(digits: string): int {
    if digits == "" then 0 else 10 * Numeral(digits[..|digits| - 1]) + DigitValue(digits[|digits| - 1])
  }

  /** The text of an integer is its decimal numeral without leading zeros. */
  lemma {:induction false} DecimalIsNumeral(n: nat)
    ensures Numeral(Decimal(n)) == n
    ensures forall c :: c in Decimal(n) ==> '0' <= c <= '9'
    ensures Decimal(n) != "" && (Decimal(n)[0] == '0' <==> n == 0)
    ensures n == 0 ==> Decimal(n) == "0"
  {
    if n >= 10 {
      DecimalIsNumeral(n / 10);
      var last := ('0' as int + n % 10) as char;
      assert Decimal(n)[..|Decimal(n)| - 1] == Decimal(n / 10);
      assert forall c :: c in Decimal(n) ==> c in Decimal(n / 10) || c == last;
    } else {
      assert Decimal(n)[..0] == "";
    }
  }

  /** All texts one after the other. */
  function Concatenated(texts: seq<string>): string {
    if texts == [] then "" else Concatenated(texts[..|texts| - 1]) + texts[|texts| - 1]
  }

  lemma {:induction false} ConcatenatedFirst(texts: seq<string>)
    requires texts != []
    ensures Concatenated(texts) == texts[0] + Concatenated(texts[1..])
  {
    if |texts| == 1 {
      assert texts[..0] == [] && texts[1..] == [];
    } else {
      var n := |texts| - 1;
      ConcatenatedFirst(texts[..n]);
      assert texts[..n][1..] == texts[1..][..n - 1];
    }
  }

  /** The piece has this text: its own, or the value of the formatted expression. */
  predicate PieceHas(p: Piece, names: Valuation, text: string) {
    (p.Text? && p.s == text) || (p.Formatted? && Eval(p.node, names) == Some(text))
  }

  ghost predicate PiecesHave(pieces: seq<Piece>, names: Valuation, texts: seq<string>) {
    |texts| == |pieces| && forall k :: 0 <= k < |texts| ==> PieceHas(pieces[k], names, texts[k])
  }

  /** The piece has no text: its expression has no value, or its shape is not supported. */
  predicate PieceLacks(p: Piece, names: Valuation) {
    p.Unsupported? || (p.Formatted? && Eval(p.node, names).None?)
  }

  lemma {:induction false} PiecesValue(joined: Node, i: nat, names: Valuation, texts: seq<string>)
    requires joined.Joined? && i <= |joined.pieces| == |texts|
    requires forall k :: i <= k < |texts| ==> PieceHas(joined.pieces[k], names, texts[k])
    ensures EvalPieces(joined, i, names) == Some(Concatenated(texts[i..]))
    decreases |texts| - i
  {
    if i < |texts| {
      PiecesValue(joined, i + 1, names, texts);
      assert PieceHas(joined.pieces[i], names, texts[i]);
      ConcatenatedFirst(texts[i..]);
      assert texts[i..][1..] == texts[i + 1..];
    }
  }

  lemma {:induction false} PiecesWithoutValue(joined: Node, i: nat, names: Valuation, k: nat)
    requires joined.Joined? && i <= k < |joined.pieces| && PieceLacks(joined.pieces[k], names)
    ensures EvalPieces(joined, i, names) == None
    decreases k - i
  {
    if i < k {
      PiecesWithoutValue(joined, i + 1, names, k);
    }
  }

  /** What each shape of expression evaluates to: literals to their text, a name to what it
      stands for, a sum to the left text followed by the right one, and an f-string to the
      texts of its pieces in order. A part without a value leaves the whole without one. */
  lemma EvalMeans(node: Node, names: Valuation)
    ensures forall text :: node == Str(text) ==> Eval(node, names) == Some(text)
    ensures forall n :: node == Int(n) ==> Eval(node, names) == Some(Decimal(n))
    ensures forall id :: node == Name(id) && id in names ==> Eval(node, names) == Some(names[id])
    ensures forall id :: node == Name(id) && id !in names ==> Eval(node, names) == None
    ensures forall l, r, a, b :: node == Add(l, r) && Eval(l, names) == Some(a) && Eval(r, names) == Some(b) ==>
      Eval(node, names) == Some(a + b)
    ensures forall l, r :: node == Add(l, r) && (Eval(l, names).None? || Eval(r, names).None?) ==>
      Eval(node, names) == None
    ensures forall texts :: node.Joined? && PiecesHave(node.pieces, names, texts) ==>
      Eval(node, names) == Some(Concatenated(texts))
    ensures node.Joined? && (exists p :: p in node.pieces && PieceLacks(p, names)) ==> Eval(node, names) == None
    ensures node.Other? ==> Eval(node, names) == None
  {
    if node.Joined? {
      forall texts | PiecesHave(node.pieces, names, texts)
        ensures Eval(node, names) == Some(Concatenated(texts))
      {
        PiecesValue(node, 0, names, texts);
        assert texts[0..] == texts;
      }
      if p :| p in node.pieces && PieceLacks(p, names) {
        var k :| 0 <= k < |node.pieces| && node.pieces[k] == p;
        PiecesWithoutValue(node, 0, names, k);
      }
    }
  }
}
