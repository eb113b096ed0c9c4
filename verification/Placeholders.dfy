/** Path templates: filling `{name}` placeholders one after the other by
    `strings.ReplaceAll`, against filling them all at once. */
module Placeholders {
  import opened Common
  import opened Text

  /** A piece of a template, or of a value written like one. */
  datatype Piece = Literal(text: string) | Hole(name: string)

  predicate NoBrace(s: string) {
    '{' !in s && '}' !in s
  }

  predicate Plain(p: Piece) {
    match p
    case Literal(text) => NoBrace(text)
    case Hole(name) => NoBrace(name)
  }

  /** Braces occur only around placeholder names, which contain none. */
  ghost predicate WellBraced(ps: seq<Piece>) {
    forall p :: p in ps ==> Plain(p)
  }

  function Placeholder(name: string): (s: string)
    ensures s != ""
  {
    "{" + name + "}"
  }

  function RenderPiece(p: Piece): string {
    match p
    case Literal(text) => text
    case Hole(name) => Placeholder(name)
  }

  function Render(ps: seq<Piece>): string {
    if ps == [] then "" else RenderPiece(ps[0]) + Render(ps[1..])
  }

  type Values = map<string, seq<Piece>>

  /** All placeholders that have a value, replaced simultaneously. */
  function AtOnce(ps: seq<Piece>, values: Values): seq<Piece> {
    if ps == [] then []
    else
      var first := if ps[0].Hole? && ps[0].name in values then values[ps[0].name] else [ps[0]];
      first + AtOnce(ps[1..], values)
  }

  /** What the processor does: a pass over the current string per parameter. */
  function ReplacedInOrder(path: string, order: seq<string>, values: map<string, string>): string
    decreases |order|
  {
    if order == [] then path
    else
      var path' := if order[0] in values then ReplaceAll(path, Placeholder(order[0]), values[order[0]]) else path;
      ReplacedInOrder(path', order[1..], values)
  }

  function RenderValues(values: Values): map<string, string> {
    map n | n in values :: Render(values[n])
  }

  ghost predicate Mentions(ps: seq<Piece>, name: string) {
    Hole(name) in ps
  }

  // -------------------------------------------- one pass is one substitution

  lemma {:induction false} RenderSplits(a: seq<Piece>, b: seq<Piece>)
    ensures Render(a + b) == Render(a) + Render(b)
  {
    if a == [] {
      assert a + b == b;
    } else {
      assert (a + b)[1..] == a[1..] + b;
      RenderSplits(a[1..], b);
    }
  }

  /** A brace-free prefix is never touched. */
  lemma {:induction false} ReplaceSkips(text: string, s: string, pattern: string, replacement: string)
    requires NoBrace(text) && pattern != "" && pattern[0] == '{'
    ensures ReplaceAll(text + s, pattern, replacement) == text + ReplaceAll(s, pattern, replacement)
  {
    if text == "" {
      assert text + s == s;
    } else {
      assert text[0] in text;
      assert (text + s)[0] == text[0] && (text + s)[1..] == text[1..] + s;
      ReplaceSkips(text[1..], s, pattern, replacement);
    }
  }

  lemma {:induction false} OnlyOwnNameCloses(m: string, n: string, s: string)
    requires NoBrace(m) && NoBrace(n)
    ensures n + "}" <= m + ("}" + s) <==> m == n
  {
    assert m != "" ==> m[0] in m;
    assert n != "" ==> n[0] in n;
    var pattern, whole := n + "}", m + ("}" + s);
    assert pattern[0] == (if n == "" then '}' else n[0]) && whole[0] == (if m == "" then '}' else m[0]);
    if m != "" && n != "" {
      OnlyOwnNameCloses(m[1..], n[1..], s);
      assert pattern[1..] == n[1..] + "}" && whole[1..] == m[1..] + ("}" + s);
      assert pattern <= whole <==> pattern[0] == whole[0] && pattern[1..] <= whole[1..] by {
        assert pattern == [pattern[0]] + pattern[1..] && whole == [whole[0]] + whole[1..];
      }
      assert m == [m[0]] + m[1..] && n == [n[0]] + n[1..];
    } else if m == n {
      assert whole[..|pattern|] == pattern;
    }
  }

  /** A placeholder is matched only by its own name. */
  lemma OnlyOwnNameMatches(m: string, n: string, s: string)
    requires NoBrace(m) && NoBrace(n)
    ensures Placeholder(n) <= Placeholder(m) + s <==> m == n
  {
    OnlyOwnNameCloses(m, n, s);
    var pattern, whole := Placeholder(n), Placeholder(m) + s;
    assert pattern == ['{'] + (n + "}") && whole == ['{'] + (m + ("}" + s));
    assert pattern[1..] == n + "}" && whole[1..] == m + ("}" + s);
    assert pattern <= whole <==> pattern[1..] <= whole[1..] by {
      if pattern[1..] <= whole[1..] {
        assert whole[..|pattern|] == pattern;
      }
    }
  }

  lemma ReplaceHole(m: string, n: string, s: string, replacement: string)
    requires NoBrace(m) && NoBrace(n)
    ensures ReplaceAll(Placeholder(m) + s, Placeholder(n), replacement) ==
      (if m == n then replacement else Placeholder(m)) + ReplaceAll(s, Placeholder(n), replacement)
  {
    var whole := Placeholder(m) + s;
    OnlyOwnNameMatches(m, n, s);
    if m == n {
      assert whole[|Placeholder(n)|..] == s;
    } else {
      var rest := m + ("}" + s);
      assert whole[1..] == rest;
      ReplaceSkips(m, "}" + s, Placeholder(n), replacement);
      assert ("}" + s)[1..] == s;
      assert ReplaceAll("}" + s, Placeholder(n), replacement) == "}" + ReplaceAll(s, Placeholder(n), replacement);
      assert Placeholder(m) + ReplaceAll(s, Placeholder(n), replacement)
          == "{" + (m + ("}" + ReplaceAll(s, Placeholder(n), replacement)));
    }
  }

  /** One pass of ReplaceAll over a well-braced string fills that placeholder's
      holes, and nothing else. */
  lemma {:induction false} OnePass(ps: seq<Piece>, n: string, value: seq<Piece>)
    requires WellBraced(ps) && NoBrace(n)
    ensures ReplaceAll(Render(ps), Placeholder(n), Render(value)) == Render(AtOnce(ps, map[n := value]))
  {
    if ps != [] {
      var rest := ps[1..];
      OnePass(rest, n, value);
      assert ps[0] in ps;
      match ps[0] {
        case Literal(text) =>
          ReplaceSkips(text, Render(rest), Placeholder(n), Render(value));
        case Hole(m) =>
          ReplaceHole(m, n, Render(rest), Render(value));
      }
      var first := if ps[0] == Hole(n) then value else [ps[0]];
      assert AtOnce(ps, map[n := value]) == first + AtOnce(rest, map[n := value]);
      RenderSplits(first, AtOnce(rest, map[n := value]));
      assert Render([ps[0]]) == RenderPiece(ps[0]);
    }
  }

  // ------------------------------------------------ many passes, any order

  lemma {:induction false} AtOnceSplits(a: seq<Piece>, b: seq<Piece>, values: Values)
    ensures AtOnce(a + b, values) == AtOnce(a, values) + AtOnce(b, values)
  {
    if a == [] {
      assert a + b == b;
    } else {
      assert (a + b)[1..] == a[1..] + b;
      AtOnceSplits(a[1..], b, values);
    }
  }

  lemma {:induction false} NothingToFill(ps: seq<Piece>, values: Values)
    requires forall n :: n in values ==> !Mentions(ps, n)
    ensures AtOnce(ps, values) == ps
  {
    if ps != [] {
      assert ps[0] in ps;
      forall n | n in values ensures !Mentions(ps[1..], n) {
      }
      NothingToFill(ps[1..], values);
    }
  }

  ghost predicate WellBracedValues(values: Values) {
    forall n :: n in values ==> NoBrace(n) && WellBraced(values[n])
  }

  lemma {:induction false} StaysWellBraced(ps: seq<Piece>, values: Values)
    requires WellBraced(ps) && WellBracedValues(values)
    ensures WellBraced(AtOnce(ps, values))
  {
    if ps != [] {
      assert ps[0] in ps;
      StaysWellBraced(ps[1..], values);
    }
  }

  /** Each value that reaches the path names no other parameter that has one. */
  ghost predicate Independent(ps: seq<Piece>, values: Values) {
    forall a, n :: a in values && n in values && a != n && Mentions(ps, a) ==> !Mentions(values[a], n)
  }

  /** Filling one more placeholder after the others. */
  lemma {:induction false} OneMore(ps: seq<Piece>, done: Values, n: string, value: seq<Piece>)
    requires n !in done
    requires forall a :: a in done && Mentions(ps, a) ==> !Mentions(done[a], n)
    ensures AtOnce(AtOnce(ps, done), map[n := value]) == AtOnce(ps, done[n := value])
  {
    if ps != [] {
      var rest := ps[1..];
      assert ps[0] in ps;
      forall a | a in done && Mentions(rest, a) ensures Mentions(ps, a) {
      }
      OneMore(rest, done, n, value);
      var first := if ps[0].Hole? && ps[0].name in done then done[ps[0].name] else [ps[0]];
      AtOnceSplits(first, AtOnce(rest, done), map[n := value]);
      if ps[0].Hole? && ps[0].name in done {
        assert Mentions(ps, ps[0].name);
        NothingToFill(first, map[n := value]);
      } else {
        assert first[1..] == [];
      }
    }
  }

  /** Splits a well-braced value map at one key. */
  function Without(values: Values, n: string): Values {
    map m | m in values && m != n :: values[m]
  }

  /** For independent values the sequence of passes, in any order, is the
      simultaneous substitution. */
  lemma {:induction false} PassesAreAtOnce(ps: seq<Piece>, done: Values, todo: seq<string>, values: Values)
    requires WellBraced(ps) && WellBracedValues(values) && Independent(ps, values)
    requires Distinct(todo)
    requires done.Keys <= values.Keys && forall n :: n in done ==> done[n] == values[n]
    requires forall n :: n in values ==> (n in todo <==> n !in done)
    ensures ReplacedInOrder(Render(AtOnce(ps, done)), todo, RenderValues(values)) == Render(AtOnce(ps, values))
    decreases |todo|
  {
    if todo == [] {
      assert done == values;
    } else {
      var n, rest := todo[0], todo[1..];
      assert n in todo;
      assert forall i :: 0 <= i < |rest| ==> rest[i] == todo[i + 1] && rest[i] != n;
      forall m | m in values && m != n ensures m in rest <==> m in todo {
        assert todo == [n] + rest;
      }
      assert Distinct(rest);
      if n in values {
        StaysWellBraced(ps, done);
        OnePass(AtOnce(ps, done), n, values[n]);
        OneMore(ps, done, n, values[n]);
        PassesAreAtOnce(ps, done[n := values[n]], rest, values);
      } else {
        PassesAreAtOnce(ps, done, rest, values);
      }
    }
  }

  /** Path substitution does not depend on the order, and is simultaneous. */
  lemma AnyOrderIsAtOnce(ps: seq<Piece>, order: seq<string>, values: Values)
    requires WellBraced(ps) && WellBracedValues(values) && Independent(ps, values)
    requires Distinct(order) && forall n :: n in values ==> n in order
    ensures ReplacedInOrder(Render(ps), order, RenderValues(values)) == Render(AtOnce(ps, values))
  {
    NothingToFill(ps, map[]);
    PassesAreAtOnce(ps, map[], order, values);
  }

  // --------------------------------------------- independence is necessary

  ghost predicate NoSelfMention(values: Values) {
    forall n :: n in values ==> !Mentions(values[n], n)
  }

  /** Every order gives the simultaneous substitution. */
  ghost predicate AlwaysSimultaneous(ps: seq<Piece>, names: set<string>, values: Values) {
    forall order :: Lists(order, names) ==>
      ReplacedInOrder(Render(ps), order, RenderValues(values)) == Render(AtOnce(ps, values))
  }

  /** Any two orders give the same path. */
  ghost predicate OrderIndependent(ps: seq<Piece>, names: set<string>, values: Values) {
    forall o, o' :: Lists(o, names) && Lists(o', names) ==>
      ReplacedInOrder(Render(ps), o, RenderValues(values)) == ReplacedInOrder(Render(ps), o', RenderValues(values))
  }

  /** A pass that would insert a longer text reveals whether there is a hole. */
  lemma {:induction false} LongerIfMentioned(ps: seq<Piece>, n: string, value: seq<Piece>)
    requires value == [Hole(n), Literal("x")]
    ensures |Render(AtOnce(ps, map[n := value]))| >= |Render(ps)|
    ensures Mentions(ps, n) ==> |Render(AtOnce(ps, map[n := value]))| > |Render(ps)|
  {
    if ps != [] {
      LongerIfMentioned(ps[1..], n, value);
      var first := if ps[0] == Hole(n) then value else [ps[0]];
      RenderSplits(first, AtOnce(ps[1..], map[n := value]));
      assert Render([ps[0]]) == RenderPiece(ps[0]);
      assert value[1..] == [Literal("x")] && value[1..][1..] == [];
      assert ps == [ps[0]] + ps[1..];
    }
  }

  /** Equal strings mention the same placeholders. */
  lemma EqualTextEqualMentions(a: seq<Piece>, b: seq<Piece>, n: string)
    requires WellBraced(a) && WellBraced(b) && NoBrace(n) && Render(a) == Render(b)
    ensures Mentions(a, n) ==> Mentions(b, n)
  {
    if Mentions(a, n) && !Mentions(b, n) {
      var longer := [Hole(n), Literal("x")];
      OnePass(a, n, longer);
      OnePass(b, n, longer);
      LongerIfMentioned(a, n, longer);
      NothingToFill(b, map[n := longer]);
      assert false;
    }
  }

  /** A placeholder that is filled last is gone, unless its value names it. */
  lemma {:induction false} FilledIsGone(ps: seq<Piece>, n: string, value: seq<Piece>)
    requires !Mentions(value, n)
    ensures !Mentions(AtOnce(ps, map[n := value]), n)
  {
    if ps != [] {
      FilledIsGone(ps[1..], n, value);
    }
  }

  lemma {:induction false} MentionsInside(ps: seq<Piece>, values: Values, a: string, n: string)
    requires Mentions(ps, a) && a in values && Mentions(values[a], n)
    ensures Mentions(AtOnce(ps, values), n)
  {
    if ps[0] != Hole(a) {
      assert ps == [ps[0]] + ps[1..];
      MentionsInside(ps[1..], values, a, n);
    }
  }

  /** Filling one placeholder leaves the others where they are. */
  lemma {:induction false} OthersStay(ps: seq<Piece>, n: string, value: seq<Piece>, m: string)
    requires Mentions(ps, m) && m != n
    ensures Mentions(AtOnce(ps, map[n := value]), m)
  {
    if ps[0] != Hole(m) {
      assert ps == [ps[0]] + ps[1..];
      OthersStay(ps[1..], n, value, m);
    }
  }

  lemma {:induction false} InOrderSplits(path: string, a: seq<string>, b: seq<string>, values: map<string, string>)
    ensures ReplacedInOrder(path, a + b, values) == ReplacedInOrder(ReplacedInOrder(path, a, values), b, values)
    decreases |a|
  {
    if a == [] {
      assert a + b == b;
    } else {
      assert (a + b)[0] == a[0] && (a + b)[1..] == a[1..] + b;
      var path' := if a[0] in values then ReplaceAll(path, Placeholder(a[0]), values[a[0]]) else path;
      InOrderSplits(path', a[1..], b, values);
    }
  }

  /** After any passes the string is still the rendering of some pieces, and
      what no pass has filled is still in it. */
  lemma {:induction false} PassesStayWellBraced(ps: seq<Piece>, order: seq<string>, values: Values, m: string)
    returns (qs: seq<Piece>)
    requires WellBraced(ps) && WellBracedValues(values)
    ensures WellBraced(qs) && Render(qs) == ReplacedInOrder(Render(ps), order, RenderValues(values))
    ensures m !in order && Mentions(ps, m) ==> Mentions(qs, m)
    decreases |order|
  {
    if order == [] {
      qs := ps;
    } else if order[0] in values {
      var n := order[0];
      OnePass(ps, n, values[n]);
      StaysWellBraced(ps, map[n := values[n]]);
      if m != n && Mentions(ps, m) {
        OthersStay(ps, n, values[n], m);
      }
      qs := PassesStayWellBraced(AtOnce(ps, map[n := values[n]]), order[1..], values, m);
    } else {
      qs := PassesStayWellBraced(ps, order[1..], values, m);
    }
  }

  /** An order that fills `n` after all the others. */
  lemma LastOrder(names: set<string>, n: string) returns (others: seq<string>)
    requires n in names
    ensures Lists(others + [n], names) && n !in others
  {
    others := SomeListing(names - {n});
    ListingSnoc(others, names - {n}, n);
    assert names - {n} + {n} == names;
  }

  /** The path when `n` is filled after all the others: it mentions `n` no longer,
      but if the template mentions it, all that the value of `n` mentions. */
  lemma FilledLast(ps: seq<Piece>, others: seq<string>, n: string, values: Values, m: string) returns (last: seq<Piece>)
    requires WellBraced(ps) && WellBracedValues(values) && NoSelfMention(values)
    requires n in values && n !in others
    ensures WellBraced(last) && Render(last) == ReplacedInOrder(Render(ps), others + [n], RenderValues(values))
    ensures !Mentions(last, n)
    ensures Mentions(ps, n) && Mentions(values[n], m) ==> Mentions(last, m)
  {
    InOrderSplits(Render(ps), others, [n], RenderValues(values));
    var qs := PassesStayWellBraced(ps, others, values, n);
    last := AtOnce(qs, map[n := values[n]]);
    OnePass(qs, n, values[n]);
    assert [n][1..] == [];
    FilledIsGone(qs, n, values[n]);
    StaysWellBraced(qs, map[n := values[n]]);
    if Mentions(ps, n) && Mentions(values[n], m) {
      MentionsInside(qs, map[n := values[n]], n, m);
    }
  }

  /** When a value that reaches the path names `n`, filling `n` last and filling
      that value's parameter last give different paths. */
  lemma DependentOrderMatters(ps: seq<Piece>, names: set<string>, values: Values, a: string, n: string)
    returns (o: seq<string>, o': seq<string>)
    requires WellBraced(ps) && WellBracedValues(values) && NoSelfMention(values)
    requires values.Keys <= names
    requires a in values && n in values && Mentions(ps, a) && Mentions(values[a], n)
    ensures Lists(o, names) && Lists(o', names)
    ensures ReplacedInOrder(Render(ps), o, RenderValues(values)) != ReplacedInOrder(Render(ps), o', RenderValues(values))
  {
    var before := LastOrder(names, n);
    var before' := LastOrder(names, a);
    o, o' := before + [n], before' + [a];
    var last := FilledLast(ps, before, n, values, n);
    var last' := FilledLast(ps, before', a, values, n);
    if Render(last) == Render(last') {
      EqualTextEqualMentions(last', last, n);
      assert false;
    }
  }

  /** Any two orders give the same path, and it is the simultaneous substitution,
      exactly when no value that reaches the path names another parameter that
      has a value. */
  lemma OrderIndependentExactlyIfIndependent(ps: seq<Piece>, names: set<string>, values: Values)
    requires WellBraced(ps) && WellBracedValues(values) && NoSelfMention(values)
    requires values.Keys <= names
    ensures OrderIndependent(ps, names, values) <==> Independent(ps, values)
    ensures AlwaysSimultaneous(ps, names, values) <==> Independent(ps, values)
  {
    if Independent(ps, values) {
      forall order | Lists(order, names)
        ensures ReplacedInOrder(Render(ps), order, RenderValues(values)) == Render(AtOnce(ps, values))
      {
        assert forall n :: n in values ==> n in names;
        AnyOrderIsAtOnce(ps, order, values);
      }
    } else {
      var a, n :| a in values && n in values && a != n && Mentions(ps, a) && Mentions(values[a], n);
      var o, o' := DependentOrderMatters(ps, names, values, a, n);
    }
  }

  // --------------------------------------------------- brace-free arguments

  /** Argument values without braces, as pieces. */
  function AsPieces(values: map<string, string>): Values {
    map n | n in values :: [Literal(values[n])]
  }

  lemma PlainValues(values: map<string, string>, ps: seq<Piece>)
    requires forall n :: n in values ==> NoBrace(n) && NoBrace(values[n])
    ensures WellBracedValues(AsPieces(values)) && Independent(ps, AsPieces(values)) && NoSelfMention(AsPieces(values))
    ensures RenderValues(AsPieces(values)) == values
  {
    forall n | n in values ensures Render([Literal(values[n])]) == values[n] {
      assert [Literal(values[n])][1..] == [];
    }
  }

  /** When every placeholder has a value, no brace is left. */
  lemma {:induction false} NoPlaceholderLeft(ps: seq<Piece>, values: map<string, string>)
    requires WellBraced(ps)
    requires forall n :: n in values ==> NoBrace(values[n])
    requires forall n :: Mentions(ps, n) ==> n in values
    ensures NoBrace(Render(AtOnce(ps, AsPieces(values))))
  {
    if ps != [] {
      assert ps[0] in ps && ps == [ps[0]] + ps[1..];
      forall n | Mentions(ps[1..], n) ensures n in values {
        assert Mentions(ps, n);
      }
      NoPlaceholderLeft(ps[1..], values);
      var first := if ps[0].Hole? then [Literal(values[ps[0].name])] else [ps[0]];
      assert ps[0].Hole? ==> Mentions(ps, ps[0].name);
      RenderSplits(first, AtOnce(ps[1..], AsPieces(values)));
      assert first[1..] == [];
    }
  }

  // ---------------------------------------------------- where order matters

  function Filled(p: Piece, n: string, value: string): string {
    if p == Hole(n) then value else RenderPiece(p)
  }

  function TwoSegments(slash: string, x: string, y: string): string {
    slash + (x + (slash + y))
  }

  /** One pass over two path segments. */
  lemma PassOverTwo(slash: string, x: Piece, y: Piece, n: string, value: string)
    requires NoBrace(slash) && Plain(x) && Plain(y) && NoBrace(n)
    ensures ReplaceAll(TwoSegments(slash, RenderPiece(x), RenderPiece(y)), Placeholder(n), value)
         == TwoSegments(slash, Filled(x, n, value), Filled(y, n, value))
  {
    PassOverLast(y, n, value);
    ReplaceSkips(slash, RenderPiece(y), Placeholder(n), value);
    PassOverPiece(x, slash + RenderPiece(y), n, value);
    ReplaceSkips(slash, RenderPiece(x) + (slash + RenderPiece(y)), Placeholder(n), value);
  }

  lemma PassOverLast(p: Piece, n: string, value: string)
    requires Plain(p) && NoBrace(n)
    ensures ReplaceAll(RenderPiece(p), Placeholder(n), value) == Filled(p, n, value)
  {
    PassOverPiece(p, "", n, value);
    assert RenderPiece(p) + "" == RenderPiece(p);
  }

  lemma PassOverPiece(p: Piece, s: string, n: string, value: string)
    requires Plain(p) && NoBrace(n)
    ensures ReplaceAll(RenderPiece(p) + s, Placeholder(n), value) == Filled(p, n, value) + ReplaceAll(s, Placeholder(n), value)
  {
    match p {
      case Literal(text) => ReplaceSkips(text, s, Placeholder(n), value);
      case Hole(m) => ReplaceHole(m, n, s, value);
    }
  }

  lemma TwoPasses(path: string, first: string, second: string, values: map<string, string>)
    requires first in values && second in values
    ensures ReplacedInOrder(path, [first, second], values) ==
      ReplaceAll(ReplaceAll(path, Placeholder(first), values[first]), Placeholder(second), values[second])
  {
    var path' := ReplaceAll(path, Placeholder(first), values[first]);
    var path'' := ReplaceAll(path', Placeholder(second), values[second]);
    assert [first, second][1..] == [second] && [second][1..] == [];
    assert ReplacedInOrder(path'', [], values) == path'';
    assert ReplacedInOrder(path', [second], values) == path'';
  }

  /** With braces in a value the order can matter: in "/{a}/{b}" with the value
      "{b}" for `a` and `x` for `b`, filling `a` first gives "/x/x", and filling
      `b` first gives "/{b}/x", whatever the names and the plain text. */
  lemma BracesInAValueMakeOrderMatter(slash: string, a: string, b: string, x: string, values: map<string, string>)
    requires NoBrace(slash) && NoBrace(a) && NoBrace(b) && NoBrace(x) && a != b
    requires values == map[a := Placeholder(b), b := x]
    ensures var path := TwoSegments(slash, Placeholder(a), Placeholder(b));
      && ReplacedInOrder(path, [a, b], values) == TwoSegments(slash, x, x)
      && ReplacedInOrder(path, [b, a], values) == TwoSegments(slash, Placeholder(b), x)
      && TwoSegments(slash, x, x) != TwoSegments(slash, Placeholder(b), x)
  {
    var path := TwoSegments(slash, Placeholder(a), Placeholder(b));
    TwoPasses(path, a, b, values);
    PassOverTwo(slash, Hole(a), Hole(b), a, values[a]);
    PassOverTwo(slash, Hole(b), Hole(b), b, x);
    TwoPasses(path, b, a, values);
    PassOverTwo(slash, Hole(a), Hole(b), b, x);
    PassOverTwo(slash, Hole(a), Literal(x), a, values[a]);
    BraceAfter(slash, x, b);
  }

  lemma BraceAfter(slash: string, x: string, b: string)
    requires NoBrace(slash) && NoBrace(x)
    ensures TwoSegments(slash, x, x) != TwoSegments(slash, Placeholder(b), x)
  {
    assert '{' !in TwoSegments(slash, x, x);
    assert TwoSegments(slash, Placeholder(b), x)[|slash|] == '{';
  }
}
