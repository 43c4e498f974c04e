/** Station search: a user's term, escaped into a LIKE pattern, matches where the term itself occurs. */
module LikePattern {
  // ---- LIKE with escape character `\`, section 8.5 of SQL-92 ---------------------------------------------------

  predicate Meta(c: char) { c == '\\' || c == '%' || c == '_' }

  /** Every escape character is followed by an escape character or a wildcard; anything else is an error. */
  predicate ValidPattern(p: string)
    decreases |p|
  {
    p == [] || if p[0] == '\\' then |p| > 1 && Meta(p[1]) && ValidPattern(p[2..]) else ValidPattern(p[1..])
  }

  /** A pattern that ends inside an escape matches nothing. */
  predicate Like(p: string, s: string)
    decreases |p| + |s|
  {
    if p == [] then s == []
    else if p[0] == '%' then Like(p[1..], s) || (s != [] && Like(p, s[1..]))
    else if p[0] == '_' then s != [] && Like(p[1..], s[1..])
    else if p[0] == '\\' then |p| > 1 && s != [] && s[0] == p[1] && Like(p[2..], s[1..])
    else s != [] && s[0] == p[0] && Like(p[1..], s[1..])
  }

  // ---- The pattern of a search term --------------------------------------------------------------------------

  function Escape(q: string): string {
    if q == [] then [] else (if Meta(q[0]) then ['\\', q[0]] else [q[0]]) + Escape(q[1..])
  }

  function Pattern(q: string): string { "%" + Escape(q) + "%" }

  /** `q` occurs in `s` at some position. */
  ghost predicate Occurs(q: string, s: string) { exists i :: 0 <= i <= |s| && q <= s[i..] }

  lemma {:induction false} EscapedIsValid(q: string, rest: string)
    requires ValidPattern(rest)
    ensures ValidPattern(Escape(q) + rest)
    decreases |q|
  {
    if q == [] {
      assert Escape(q) + rest == rest;
    } else {
      EscapedIsValid(q[1..], rest);
      EscapeStep(q, rest);
    }
  }

  /** The head of an escaped term, and what follows it. */
  lemma EscapeStep(q: string, rest: string)
    requires q != []
    ensures var p, more := Escape(q) + rest, Escape(q[1..]) + rest;
      if Meta(q[0]) then |p| > 1 && p[0] == '\\' && p[1] == q[0] && p[2..] == more else p != [] && p[0] == q[0] && p[1..] == more
  {
    if Meta(q[0]) {
      Behind(['\\', q[0]], Escape(q[1..]), rest);
    } else {
      Behind([q[0]], Escape(q[1..]), rest);
    }
  }

  lemma Behind(a: string, b: string, c: string)
    ensures a + b + c == a + (b + c) && (a + b + c)[|a|..] == b + c
    ensures forall k :: 0 <= k < |a| ==> (a + b + c)[k] == a[k]
  {
  }

  lemma {:induction false} AnyTail(s: string)
    ensures Like("%", s)
    decreases |s|
  {
    if s == [] {
      assert Like("%"[1..], s);
    } else {
      AnyTail(s[1..]);
    }
  }

  /** The escaped term followed by `%` matches exactly the strings the term begins. */
  lemma {:induction false} EscapedMatchesPrefix(q: string, s: string)
    ensures Like(Escape(q) + "%", s) <==> q <= s
    decreases |q|
  {
    if q == [] {
      assert Escape(q) + "%" == "%";
      AnyTail(s);
    } else {
      EscapeStep(q, "%");
      if s != [] {
        EscapedMatchesPrefix(q[1..], s[1..]);
        assert q <= s <==> q[0] == s[0] && q[1..] <= s[1..] by { PrefixStep(q, s); }
      }
    }
  }

  lemma PrefixStep(q: string, s: string)
    requires q != [] && s != []
    ensures q <= s <==> q[0] == s[0] && q[1..] <= s[1..]
  {
    assert q == [q[0]] + q[1..] && s == [s[0]] + s[1..];
    if q[0] == s[0] && q[1..] <= s[1..] {
      forall k | 0 <= k < |q| ensures q[k] == s[k] {
        if k > 0 { assert q[k] == q[1..][k - 1] == s[1..][k - 1] == s[k]; }
      }
    }
    if q <= s {
      assert q[0] == s[0];
      forall k | 0 <= k < |q[1..]| ensures q[1..][k] == s[1..][k] { assert q[k + 1] == s[k + 1]; }
    }
  }

  /** For every term and every text: the pattern matches if and only if the term occurs literally. */
  lemma {:induction false} PatternMatchesOccurrence(q: string, s: string)
    ensures Like(Pattern(q), s) <==> Occurs(q, s)
    ensures ValidPattern(Pattern(q))
    decreases |s|
  {
    PatternIsValid(q);
    var tail := Escape(q) + "%";
    assert Pattern(q)[1..] == tail;
    EscapedMatchesPrefix(q, s);
    if s == [] {
      OccursHere(q, s);
    } else {
      PatternMatchesOccurrence(q, s[1..]);
      OccursLater(q, s);
    }
  }

  lemma PatternIsValid(q: string)
    ensures ValidPattern(Pattern(q))
  {
    assert ValidPattern("%") by { assert "%"[1..] == []; }
    EscapedIsValid(q, "%");
    assert Pattern(q) == "%" + (Escape(q) + "%") && Pattern(q)[1..] == Escape(q) + "%";
  }

  lemma OccursHere(q: string, s: string)
    requires s == []
    ensures Occurs(q, s) <==> q <= s
  {
    assert s[0..] == s;
  }

  lemma OccursLater(q: string, s: string)
    requires s != []
    ensures Occurs(q, s) <==> q <= s || Occurs(q, s[1..])
  {
    if q <= s { assert s[0..] == s; }
    if Occurs(q, s[1..]) {
      var i :| 0 <= i <= |s[1..]| && q <= s[1..][i..];
      assert s[1..][i..] == s[i + 1..];
    }
    if Occurs(q, s) {
      var i :| 0 <= i <= |s| && q <= s[i..];
      if i == 0 { assert s[0..] == s; } else { assert s[1..][i - 1..] == s[i..]; }
    }
  }

  // ---- ILIKE -------------------------------------------------------------------------------------------------

  /** A character-wise case folding: it leaves the wildcards and the escape alone and maps nothing onto them. */
  ghost predicate CaseFold(fold: char -> char) { forall c :: (Meta(c) ==> fold(c) == c) && (Meta(fold(c)) ==> fold(c) == c) }

  function Folded(fold: char -> char, s: string): string { seq(|s|, i requires 0 <= i < |s| => fold(s[i])) }

  predicate ILike(fold: char -> char, p: string, s: string) { Like(Folded(fold, p), Folded(fold, s)) }

  lemma {:induction false} FoldEscape(fold: char -> char, q: string)
    requires CaseFold(fold)
    ensures Folded(fold, Escape(q)) == Escape(Folded(fold, q))
    decreases |q|
  {
    if q != [] {
      FoldEscape(fold, q[1..]);
      assert Folded(fold, q)[1..] == Folded(fold, q[1..]);
      var head := if Meta(q[0]) then ['\\', q[0]] else [q[0]];
      assert Escape(q) == head + Escape(q[1..]);
      assert Folded(fold, Escape(q)) == Folded(fold, head) + Folded(fold, Escape(q[1..]));
      assert Meta(q[0]) <==> Meta(fold(q[0]));
    }
  }

  /** ILIKE: the same, up to case. */
  lemma IPatternMatchesOccurrence(fold: char -> char, q: string, s: string)
    requires CaseFold(fold)
    ensures ILike(fold, Pattern(q), s) <==> Occurs(Folded(fold, q), Folded(fold, s))
  {
    FoldEscape(fold, q);
    assert Meta('%');
    assert Folded(fold, Pattern(q)) == Pattern(Folded(fold, q));
    PatternMatchesOccurrence(Folded(fold, q), Folded(fold, s));
  }

  // ---- The WHERE clause ----------------------------------------------------------------------------------------

  datatype Station = Station(name: string, genre: string, description: string, isPublic: bool)

  datatype Params = Params(query: string, genre: string, sort: string)

  /** Conditions on a row; `arg` is the number of the placeholder, counted from 1. */
  datatype Clause = Public | Search(arg: nat) | GenreIs(arg: nat)

  datatype Order = ByName | Newest | OnlineFirst

  ghost predicate Satisfies(c: Clause, args: seq<string>, st: Station, fold: char -> char) {
    match c
    case Public => st.isPublic
    case Search(k) => 1 <= k <= |args| && (ILike(fold, args[k - 1], st.name) || ILike(fold, args[k - 1], st.genre) || ILike(fold, args[k - 1], st.description))
    case GenreIs(k) => 1 <= k <= |args| && st.genre == args[k - 1]
  }

  ghost predicate Selected(where: seq<Clause>, args: seq<string>, st: Station, fold: char -> char) {
    forall i :: 0 <= i < |where| ==> Satisfies(where[i], args, st, fold)
  }

  /** What the listing promises: public stations that hold the term, in any case, in one of three fields. */
  ghost predicate Wanted(p: Params, st: Station, fold: char -> char) {
    && st.isPublic
    && (p.query != "" ==>
        var q := Folded(fold, p.query);
        Occurs(q, Folded(fold, st.name)) || Occurs(q, Folded(fold, st.genre)) || Occurs(q, Folded(fold, st.description)))
    && (p.genre != "" ==> st.genre == p.genre)
  }

  method BuildListPublicQuery(p: Params, ghost fold: char -> char) returns (where: seq<Clause>, orderBy: Order, args: seq<string>)
    requires CaseFold(fold)
    ensures forall st :: Selected(where, args, st, fold) <==> Wanted(p, st, fold)
    ensures orderBy == if p.sort == "newest" then Newest else if p.sort == "online_first" then OnlineFirst else ByName
  {
    where, args := [Public], [];
    var argIdx := 1;
    if p.query != "" {
      where := where + [Search(argIdx)];
      args := args + [Pattern(p.query)];
      argIdx := argIdx + 1;
    }
    if p.genre != "" {
      where := where + [GenreIs(argIdx)];
      args := args + [p.genre];
    }
    orderBy := ByName;
    if p.sort == "newest" {
      orderBy := Newest;
    } else if p.sort == "online_first" {
      orderBy := OnlineFirst;
    }
    forall st ensures Selected(where, args, st, fold) <==> Wanted(p, st, fold) {
      SelectedIsWanted(p, where, args, st, fold);
    }
  }

  lemma SelectedIsWanted(p: Params, where: seq<Clause>, args: seq<string>, st: Station, fold: char -> char)
    requires CaseFold(fold)
    requires where == [Public] + (if p.query != "" then [Search(1)] else []) + (if p.genre != "" then [GenreIs(if p.query != "" then 2 else 1)] else [])
    requires args == (if p.query != "" then [Pattern(p.query)] else []) + (if p.genre != "" then [p.genre] else [])
    ensures Selected(where, args, st, fold) <==> Wanted(p, st, fold)
  {
    IPatternMatchesOccurrence(fold, p.query, st.name);
    IPatternMatchesOccurrence(fold, p.query, st.genre);
    IPatternMatchesOccurrence(fold, p.query, st.description);
    assert where[0] == Public;
    if p.query != "" { assert where[1] == Search(1); }
    if p.genre != "" { assert where[|where| - 1] == GenreIs(|args|); }
  }
}
