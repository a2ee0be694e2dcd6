/** Variable names and the dotted keys they set. What lower case is outside ASCII is given:
    one letter there may become several. */
module Environment {
  import opened Wrappers
  import opened DottedKeys
  import opened SettingsTree

  const PREFIX := "TETANUS_"

  // ----- letters -----

  predicate IsUpper(c: char) {
    'A' <= c <= 'Z'
  }

  predicate IsLower(c: char) {
    'a' <= c <= 'z'
  }

  function LowerChar(c: char): char {
    if IsUpper(c) then (c as int + 32) as char else c
  }

  function UpperChar(c: char): char {
    if IsLower(c) then (c as int - 32) as char else c
  }

  function Each(f: char -> char, s: string): (r: string)
    ensures |r| == |s|
    ensures forall i :: 0 <= i < |s| ==> r[i] == f(s[i])
  {
    seq(|s|, i requires 0 <= i < |s| => f(s[i]))
  }

  function Lower(s: string): string {
    Each(LowerChar, s)
  }

  function Upper(s: string): string {
    Each(UpperChar, s)
  }

  predicate IsAscii(s: string) {
    forall i :: 0 <= i < |s| ==> s[i] as int <= 0x7F
  }

  /** `lower` is the ASCII lower case of ASCII text. */
  ghost predicate LowersAscii(lower: string -> string) {
    forall s :: IsAscii(s) ==> lower(s) == Lower(s)
  }

  predicate HasNoUpper(s: string) {
    forall i :: 0 <= i < |s| ==> !IsUpper(s[i])
  }

  predicate HasNoLower(s: string) {
    forall i :: 0 <= i < |s| ==> !IsLower(s[i])
  }

  // ----- the separator -----

  predicate StartsWithSeparator(s: string) {
    |s| >= 2 && s[0] == '_' && s[1] == '_'
  }

  /** The pieces between separators, cut from the left. */
  function Split(s: string): (r: seq<string>)
    ensures r != []
  {
    if s == [] then [[]]
    else if StartsWithSeparator(s) then [[]] + Split(s[2..])
    else
      var rest := Split(s[1..]);
      [[s[0]] + rest[0]] + rest[1..]
  }

  function Joined(p: seq<string>): string
    requires p != []
  {
    if |p| == 1 then p[0] else p[0] + "__" + Joined(p[1..])
  }

  predicate HasSeparator(s: string) {
    s != [] && (StartsWithSeparator(s) || HasSeparator(s[1..]))
  }

  /** Pieces that a cut from the left can give: no separator inside one, and none but the
      last ends where a separator could begin sooner. */
  predicate ArePieces(p: seq<string>) {
    && p != [] && !HasSeparator(p[0])
    && (|p| > 1 ==> EndsClear(p[0]) && ArePieces(p[1..]))
  }

  predicate EndsClear(s: string) {
    s == [] || s[|s| - 1] != '_'
  }

  lemma {:induction false} SplitPiece(s: string)
    requires !HasSeparator(s)
    ensures Split(s) == [s]
  {
    if s != [] {
      SplitPiece(s[1..]);
      assert [s[0]] + s[1..] == s;
    }
  }

  lemma {:induction false} SplitAtSeparator(a: string, rest: string)
    requires !HasSeparator(a) && EndsClear(a)
    ensures Split(a + "__" + rest) == [a] + Split(rest)
  {
    var s := a + "__" + rest;
    if a == [] {
      assert s[2..] == rest;
    } else {
      var b := a[1..];
      SplitAtSeparator(b, rest);
      assert s[1..] == b + "__" + rest;
      assert [a[0]] + b == a;
    }
  }

  lemma {:induction false} SplitJoined(p: seq<string>)
    requires ArePieces(p)
    ensures Split(Joined(p)) == p
  {
    if |p| == 1 {
      SplitPiece(p[0]);
    } else {
      var rest := p[1..];
      SplitJoined(rest);
      SplitAtSeparator(p[0], Joined(rest));
      assert [p[0]] + rest == p;
    }
  }

  lemma {:induction false} SplitFirst(s: string)
    ensures Split(s)[0] <= s
    ensures Split(s)[0] == [] && |Split(s)| > 1 ==> StartsWithSeparator(s)
  {
    if s != [] && !StartsWithSeparator(s) {
      SplitFirst(s[1..]);
      assert s == [s[0]] + s[1..];
    }
  }

  /** Joining what was cut gives the name back. */
  lemma {:induction false} JoinedSplit(s: string)
    ensures Joined(Split(s)) == s
  {
    if s == [] {
    } else if StartsWithSeparator(s) {
      JoinedSplit(s[2..]);
      JoinedMore([], Split(s[2..]));
      assert s == [] + "__" + s[2..];
    } else {
      JoinedSplit(s[1..]);
      JoinedLonger(s[0], Split(s[1..]));
      assert s == [s[0]] + s[1..];
    }
  }

  lemma JoinedMore(a: string, p: seq<string>)
    requires p != []
    ensures Joined([a] + p) == a + "__" + Joined(p)
  {
    assert ([a] + p)[1..] == p;
  }

  lemma JoinedLonger(c: char, p: seq<string>)
    requires p != []
    ensures Joined([[c] + p[0]] + p[1..]) == [c] + Joined(p)
  {
    var q := [[c] + p[0]] + p[1..];
    assert q[1..] == p[1..];
    if |p| > 1 {
      assert ([c] + p[0]) + "__" + Joined(p[1..]) == [c] + (p[0] + "__" + Joined(p[1..]));
    }
  }

  /** A cut gives pieces. */
  lemma {:induction false} SplitGivesPieces(s: string)
    ensures ArePieces(Split(s))
  {
    if s == [] {
    } else if StartsWithSeparator(s) {
      SplitGivesPieces(s[2..]);
      assert ([[]] + Split(s[2..]))[1..] == Split(s[2..]);
    } else {
      SplitGivesPieces(s[1..]);
      SplitFirst(s[1..]);
      PieceGrows(s, Split(s[1..]));
    }
  }

  lemma PieceGrows(s: string, p: seq<string>)
    requires s != [] && !StartsWithSeparator(s)
    requires ArePieces(p) && p[0] <= s[1..] && (p[0] == [] && |p| > 1 ==> StartsWithSeparator(s[1..]))
    ensures ArePieces([[s[0]] + p[0]] + p[1..])
  {
    var first := [s[0]] + p[0];
    assert first[1..] == p[0];
    if p[0] != [] {
      assert first[1] == s[1];
    }
    assert ([first] + p[1..])[1..] == p[1..];
  }

  // ----- letter by letter -----

  /** No letter becomes an underscore and no underscore becomes a letter. */
  ghost predicate KeepsUnderscore(f: char -> char) {
    forall c :: f(c) == '_' <==> c == '_'
  }

  function EachAll(f: char -> char, p: seq<string>): (r: seq<string>)
    ensures |r| == |p|
  {
    if p == [] then [] else [Each(f, p[0])] + EachAll(f, p[1..])
  }

  lemma EachTail(f: char -> char, s: string, n: nat)
    requires n <= |s|
    ensures Each(f, s)[n..] == Each(f, s[n..])
  {
  }

  lemma {:induction false} SeparatorEach(f: char -> char, s: string)
    requires KeepsUnderscore(f)
    ensures HasSeparator(Each(f, s)) <==> HasSeparator(s)
    ensures StartsWithSeparator(Each(f, s)) <==> StartsWithSeparator(s)
  {
    if s != [] {
      EachTail(f, s, 1);
      SeparatorEach(f, s[1..]);
    }
  }

  lemma {:induction false} JoinedEach(f: char -> char, p: seq<string>)
    requires p != [] && KeepsUnderscore(f)
    ensures Joined(EachAll(f, p)) == Each(f, Joined(p))
  {
    if |p| == 1 {
    } else {
      JoinedEach(f, p[1..]);
      JoinedMore(Each(f, p[0]), EachAll(f, p[1..]));
      assert Each(f, p[0] + "__" + Joined(p[1..])) == Each(f, p[0]) + "__" + Each(f, Joined(p[1..]));
    }
  }

  lemma {:induction false} PiecesEach(f: char -> char, p: seq<string>)
    requires ArePieces(p) && KeepsUnderscore(f)
    ensures ArePieces(EachAll(f, p))
  {
    SeparatorEach(f, p[0]);
    assert EachAll(f, p)[1..] == EachAll(f, p[1..]);
    if |p| > 1 {
      PiecesEach(f, p[1..]);
    }
  }

  lemma {:induction false} EachAllAt(f: char -> char, p: seq<string>, i: nat)
    requires i < |p|
    ensures EachAll(f, p)[i] == Each(f, p[i])
  {
    if i > 0 {
      EachAllAt(f, p[1..], i - 1);
    }
  }

  lemma {:induction false} SeparatorSplits(s: string)
    ensures HasSeparator(s) <==> |Split(s)| > 1
  {
    if s != [] && !StartsWithSeparator(s) {
      SeparatorSplits(s[1..]);
    }
  }

  /** Each letter of a piece is a letter of the whole. */
  lemma {:induction false} WithinJoined(p: seq<string>, i: nat, c: char)
    requires i < |p| && c in p[i]
    ensures c in Joined(p)
  {
    if i > 0 {
      WithinJoined(p[1..], i - 1, c);
    }
  }

  // ----- names and keys -----

  /** Every piece in lower case. */
  function LowerAll(lower: string -> string, p: seq<string>): (r: seq<string>)
    ensures |r| == |p|
  {
    if p == [] then [] else [lower(p[0])] + LowerAll(lower, p[1..])
  }

  /** The dotted key a variable names, if it names one. */
  function KeyOf(lower: string -> string, name: string): Option<string> {
    if !(PREFIX <= name) || !HasSeparator(name[|PREFIX|..]) then None
    else
      var segments := LowerAll(lower, Split(name[|PREFIX|..]));
      if [] in segments then None else Some(Join(segments))
  }

  predicate AllAscii(p: seq<string>) {
    forall i :: 0 <= i < |p| ==> IsAscii(p[i])
  }

  lemma {:induction false} LowersPieces(lower: string -> string, p: seq<string>)
    requires LowersAscii(lower) && AllAscii(p)
    ensures LowerAll(lower, p) == EachAll(LowerChar, p)
  {
    if p != [] {
      assert IsAscii(p[0]);
      LowersPieces(lower, p[1..]);
    }
  }

  /** Paths that a variable can name: two or more ASCII names in lower case, in pieces. */
  predicate IsNameable(p: seq<string>) {
    |p| >= 2 && IsPath(p) && ArePieces(p) && AllAscii(p) && forall i :: 0 <= i < |p| ==> HasNoUpper(p[i])
  }

  function NameOf(p: seq<string>): string
    requires p != []
  {
    PREFIX + Upper(Joined(p))
  }

  lemma LowerUpper(s: string)
    requires HasNoUpper(s)
    ensures Lower(Upper(s)) == s
  {
  }

  lemma UpperLower(s: string)
    requires HasNoLower(s)
    ensures Upper(Lower(s)) == s
  {
  }

  lemma {:induction false} LowerUpperAll(p: seq<string>)
    requires forall i :: 0 <= i < |p| ==> HasNoUpper(p[i])
    ensures EachAll(LowerChar, EachAll(UpperChar, p)) == p
  {
    if p != [] {
      LowerUpper(p[0]);
      LowerUpperAll(p[1..]);
      assert EachAll(UpperChar, p)[1..] == EachAll(UpperChar, p[1..]);
    }
  }

  lemma UpperPieces(p: seq<string>)
    requires AllAscii(p)
    ensures AllAscii(EachAll(UpperChar, p))
  {
    forall i | 0 <= i < |p| ensures IsAscii(EachAll(UpperChar, p)[i]) {
      EachAllAt(UpperChar, p, i);
    }
  }

  /** The name made for a path names that path's key. */
  lemma NamesItsKey(lower: string -> string, p: seq<string>)
    requires LowersAscii(lower) && IsNameable(p)
    ensures KeyOf(lower, NameOf(p)) == Some(Join(p))
  {
    var rest := Upper(Joined(p));
    var upper := EachAll(UpperChar, p);
    assert NameOf(p)[|PREFIX|..] == rest;
    JoinedEach(UpperChar, p);
    PiecesEach(UpperChar, p);
    SplitJoined(upper);
    SeparatorSplits(rest);
    UpperPieces(p);
    LowersPieces(lower, upper);
    LowerUpperAll(p);
    assert forall i :: 0 <= i < |p| ==> IsName(p[i]);
  }

  /** The pieces of a name without dots or lower case, itself in ASCII, make a path once
      they are in lower case, when none is empty. */
  lemma PiecesMakePath(rest: string, pieces: seq<string>)
    requires pieces != [] && Joined(pieces) == rest && IsAscii(rest) && '.' !in rest
    requires [] !in EachAll(LowerChar, pieces)
    ensures var p := EachAll(LowerChar, pieces);
            AllAscii(pieces) && AllAscii(p) && IsPath(p) && forall i :: 0 <= i < |p| ==> HasNoUpper(p[i])
  {
    var p := EachAll(LowerChar, pieces);
    forall i | 0 <= i < |pieces|
      ensures IsAscii(pieces[i]) && IsAscii(p[i]) && IsName(p[i]) && HasNoUpper(p[i])
    {
      EachAllAt(LowerChar, pieces, i);
      assert p[i] in p;
      forall k | 0 <= k < |pieces[i]| ensures pieces[i][k] as int <= 0x7F && pieces[i][k] != '.' {
        WithinJoined(pieces, i, pieces[i][k]);
      }
    }
  }

  /** Every ASCII name without dots or lower case that names a key at all is made so from a
      path, and from one path only. */
  lemma NamedByOnePath(lower: string -> string, name: string)
    requires LowersAscii(lower) && IsAscii(name) && HasNoLower(name) && '.' !in name
    requires KeyOf(lower, name).Some?
    ensures exists p :: MadeFrom(lower, name, p)
    ensures forall p, q :: MadeFrom(lower, name, p) && MadeFrom(lower, name, q) ==> p == q
  {
    var p := PathOf(lower, name);
    assert MadeFrom(lower, name, p);
    forall a, b | MadeFrom(lower, name, a) && MadeFrom(lower, name, b) ensures a == b {
      JoinInjective(a, b);
    }
  }

  lemma PathOf(lower: string -> string, name: string) returns (p: seq<string>)
    requires LowersAscii(lower) && IsAscii(name) && HasNoLower(name) && '.' !in name
    requires KeyOf(lower, name).Some?
    ensures MadeFrom(lower, name, p)
  {
    var rest := name[|PREFIX|..];
    var pieces := Split(rest);
    p := EachAll(LowerChar, pieces);
    SplitGivesPieces(rest);
    PiecesEach(LowerChar, pieces);
    SeparatorSplits(rest);
    JoinedSplit(rest);
    JoinedEach(LowerChar, pieces);
    assert HasNoLower(rest) && IsAscii(rest);
    UpperLower(rest);
    assert name == PREFIX + rest;
    forall i | 0 <= i < |pieces| ensures IsAscii(pieces[i]) {
      forall k | 0 <= k < |pieces[i]| ensures pieces[i][k] as int <= 0x7F {
        WithinJoined(pieces, i, pieces[i][k]);
      }
    }
    LowersPieces(lower, pieces);
    PiecesMakePath(rest, pieces);
  }

  /** The name is the path's own, and it names the path's key. */
  ghost predicate MadeFrom(lower: string -> string, name: string, p: seq<string>) {
    IsNameable(p) && name == NameOf(p) && KeyOf(lower, name) == Some(Join(p))
  }

  // ----- the layer -----

  /** How values are read: as JSON when they parse as JSON, and as text otherwise. */
  datatype Reading<!V> = Reading(json: string -> Option<V>, text: string -> V)

  function ValueOf<V>(r: Reading<V>, text: string): V {
    match r.json(text)
    case Some(v) => v
    case None => r.text(text)
  }

  /** The text of the last variable that names the key. */
  function LastNaming(lower: string -> string, vars: seq<(string, string)>, key: string): Option<string> {
    if vars == [] then None
    else
      var last := vars[|vars| - 1];
      if KeyOf(lower, last.0) == Some(key) then Some(last.1) else LastNaming(lower, vars[..|vars| - 1], key)
  }

  /** What the layer is to hold at a key. */
  function Supplied<V>(lower: string -> string, r: Reading<V>, vars: seq<(string, string)>, key: string): Option<V> {
    match LastNaming(lower, vars, key)
    case Some(text) => Some(ValueOf(r, text))
    case None => None
  }

  lemma OneMoreVariable<V>(
    lower: string -> string, r: Reading<V>, vars: seq<(string, string)>, i: nat, key: string)
    requires i < |vars|
    ensures Supplied(lower, r, vars[..i + 1], key) ==
            if KeyOf(lower, vars[i].0) == Some(key) then Some(ValueOf(r, vars[i].1))
            else Supplied(lower, r, vars[..i], key)
  {
    assert vars[..i + 1][..i] == vars[..i];
  }

  /** The variable names a key that none after it names. */
  predicate IsLastNaming(lower: string -> string, vars: seq<(string, string)>, i: nat) {
    && i < |vars| && KeyOf(lower, vars[i].0).Some?
    && forall j :: i < j < |vars| ==> KeyOf(lower, vars[j].0) != KeyOf(lower, vars[i].0)
  }

  /** The document holds the variable's value: as JSON if it reads as JSON, else as text. */
  predicate Holds<V(==)>(lower: string -> string, r: Reading<V>, variable: (string, string), document: map<string, V>) {
    && KeyOf(lower, variable.0).Some? && KeyOf(lower, variable.0).value in document
    && var value := document[KeyOf(lower, variable.0).value];
       if r.json(variable.1).Some? then value == r.json(variable.1).value else value == r.text(variable.1)
  }

  lemma {:induction false} LastIsLast(lower: string -> string, vars: seq<(string, string)>, i: nat)
    requires IsLastNaming(lower, vars, i)
    ensures LastNaming(lower, vars, KeyOf(lower, vars[i].0).value) == Some(vars[i].1)
  {
    if i < |vars| - 1 {
      LastIsLast(lower, vars[..|vars| - 1], i);
    }
  }

  lemma {:induction false} SomeNaming(lower: string -> string, vars: seq<(string, string)>, key: string)
    returns (i: nat)
    requires LastNaming(lower, vars, key).Some?
    ensures i < |vars| && KeyOf(lower, vars[i].0) == Some(key)
  {
    i := |vars| - 1;
    if KeyOf(lower, vars[i].0) != Some(key) {
      i := SomeNaming(lower, vars[..i], key);
    }
  }

  function Held<V>(document: map<string, V>, key: string): Option<V> {
    if key in document then Some(document[key]) else None
  }

  /** The layer the environment makes: a variable that names no key sets nothing, and of two
      that name one key the later wins. */
  method FromVars<V>(lower: string -> string, reading: Reading<V>, vars: seq<(string, string)>)
    returns (document: map<string, V>)
    ensures forall key :: Held(document, key) == Supplied(lower, reading, vars, key)
    ensures forall i :: 0 <= i < |vars| && IsLastNaming(lower, vars, i) ==> Holds(lower, reading, vars[i], document)
    ensures forall key :: key in document ==> exists i :: 0 <= i < |vars| && KeyOf(lower, vars[i].0) == Some(key)
  {
    document := map[];
    for i := 0 to |vars|
      invariant forall key :: Held(document, key) == Supplied(lower, reading, vars[..i], key)
    {
      forall key
        ensures Supplied(lower, reading, vars[..i + 1], key) ==
                if KeyOf(lower, vars[i].0) == Some(key) then Some(ValueOf(reading, vars[i].1))
                else Supplied(lower, reading, vars[..i], key)
      {
        OneMoreVariable(lower, reading, vars, i, key);
      }
      var key := KeyOf(lower, vars[i].0);
      if key.Some? {
        document := document[key.value := ValueOf(reading, vars[i].1)];
      }
    }
    assert vars[..|vars|] == vars;
    forall i | 0 <= i < |vars| && IsLastNaming(lower, vars, i) ensures Holds(lower, reading, vars[i], document) {
      LastIsLast(lower, vars, i);
      assert Held(document, KeyOf(lower, vars[i].0).value).Some?;
    }
    forall key | key in document ensures exists i :: 0 <= i < |vars| && KeyOf(lower, vars[i].0) == Some(key) {
      assert Held(document, key).Some?;
      var i := SomeNaming(lower, vars, key);
    }
  }
}
