/** Log patterns and their pieces: which lists of pieces a pattern can spell, and that parsing
    finds exactly those again. */
module PatternPrinting {
  import opened Common
  import opened LogFormatters

  function Braced(arg: string): string {
    if arg == "" then "" else ['{'] + arg + ['}']
  }

  function Print1(p: Piece): string {
    match p
    case Text(t) => t
    case Directive(n, a) => ['%'] + n + Braced(a)
    case Error => ""
  }

  function Print(ps: seq<Piece>): string {
    if ps == [] then "" else Print1(ps[0]) + Print(ps[1..])
  }

  /** Every '%' in `t` is followed by another one, at the latest at the front of `rest`. */
  ghost predicate Doubled(t: string, rest: string) {
    forall k | 0 <= k < |t| && t[k] == '%' :: k + 1 < |t + rest| && (t + rest)[k + 1] == '%'
  }

  /** What may follow a directive without an argument. */
  predicate EndsName(name: string, rest: string) {
    rest == "" || (!InName(rest[0]) && rest[0] != '{' && (name == "" ==> rest[0] != '%'))
  }

  ghost predicate Spelled(p: Piece, rest: string) {
    match p
    case Text(t) => t != "" && Doubled(t, rest)
    case Directive(n, a) => (forall c | c in n :: InName(c)) && '}' !in a && (a == "" ==> EndsName(n, rest))
    case Error => false
  }

  /** Exactly the lists that come back. Nothing but the printed text next to each piece has to
      be looked at. */
  ghost predicate Canonical(ps: seq<Piece>) {
    ps != [] ==>
      && Spelled(ps[0], Print(ps[1..]))
      && (ps[0].Text? && |ps| > 1 ==> ps[1].Directive?)
      && Canonical(ps[1..])
  }

  // ------------------------------------------------------------------ canonical lists come back

  /** How far the outer loop only collects text. */
  function Run(s: string): (n: nat)
    ensures n <= |s|
    ensures forall k | 0 <= k < n && s[k] == '%' :: k + 1 < |s| && s[k + 1] == '%'
    ensures n < |s| ==> AtDirective(s, n)
  {
    if s == "" || (s[0] == '%' && (|s| > 1 ==> s[1] != '%')) then 0 else 1 + Run(s[1..])
  }

  lemma {:induction false} RunOver(s: string, n: nat, text: string)
    requires n <= |s| && forall k | 0 <= k < n && s[k] == '%' :: k + 1 < |s| && s[k + 1] == '%'
    ensures Parsed(s, text) == Parsed(s[n..], text + s[..n])
    decreases n
  {
    if n > 0 {
      RunOver(s[1..], n - 1, text + [s[0]]);
      assert s[1..][n - 1..] == s[n..];
      assert text + [s[0]] + s[1..][..n - 1] == text + s[..n];
    } else {
      assert s[0..] == s && text + s[..0] == text;
    }
  }

  lemma TextAhead(t: string, rest: string)
    requires Doubled(t, rest)
    ensures Parsed(t + rest, "") == Parsed(rest, t)
  {
    RunOver(t + rest, |t|, "");
    assert (t + rest)[|t|..] == rest && "" + (t + rest)[..|t|] == t;
  }

  lemma NameAhead(n: string, rest: string)
    requires (forall c | c in n :: InName(c)) && (rest != "" ==> !InName(rest[0]))
    ensures NameLength(n + rest) == |n|
  {
    forall k | 0 <= k < |n| ensures InName((n + rest)[k]) {
      assert n[k] in n;
    }
    NameFound(n + rest, |n|);
  }

  lemma ArgAhead(a: string, rest: string)
    requires '}' !in a
    ensures ArgLength(a + (['}'] + rest)) == |a|
  {
    var s := a + (['}'] + rest);
    assert forall k | 0 <= k < |a| :: s[k] == a[k];
    ArgEnds(s, |a|);
  }

  lemma ScanArgAhead(n: string, a: string, rest: string)
    requires '}' !in a
    ensures ScanArg(n, a + (['}'] + rest)) == Some(Scanned(Directive(n, a), |n| + 1 + |a| + 1))
  {
    ArgAhead(a, rest);
    assert (a + (['}'] + rest))[..|a|] == a;
  }

  lemma NameThenArg(n: string, behind: string)
    requires (forall c | c in n :: InName(c)) && behind != "" && behind[0] == '{'
    ensures Scan(n + behind) == ScanArg(n, behind[1..])
  {
    NameAhead(n, behind);
    assert (n + behind)[..|n|] == n && (n + behind)[|n| + 1..] == behind[1..];
  }

  lemma NameAlone(n: string, rest: string)
    requires (forall c | c in n :: InName(c)) && (rest != "" ==> !InName(rest[0]) && rest[0] != '{')
    ensures Scan(n + rest) == Some(Scanned(Directive(n, ""), |n|))
  {
    NameAhead(n, rest);
    assert (n + rest)[..|n|] == n;
  }

  lemma BracedAhead(n: string, a: string, rest: string)
    requires (forall c | c in n :: InName(c)) && '}' !in a
    ensures Scan(n + (['{'] + (a + (['}'] + rest)))) == Some(Scanned(Directive(n, a), |n| + 1 + |a| + 1))
  {
    var behind := ['{'] + (a + (['}'] + rest));
    assert behind[1..] == a + (['}'] + rest);
    NameThenArg(n, behind);
    ScanArgAhead(n, a, rest);
  }

  function Behind(a: string, rest: string): string {
    if a == "" then rest else ['{'] + (a + (['}'] + rest))
  }

  lemma DirectiveFirst(s: string, text: string, d: Scanned, after: string, rest: string)
    requires AtDirective(s, 0) && s[1..] == after && Scan(after) == Some(d) && s[1 + d.length..] == rest
    ensures Parsed(s, text) == Flush(text) + ([d.directive] + Parsed(rest, ""))
  {
  }

  lemma BracesJoined(n: string, b: string, rest: string)
    ensures ['%'] + n + b + rest == ['%'] + (n + (b + rest))
  {
    Regrouped(['%'] + n, b, rest);
    Regrouped(['%'], n, b + rest);
  }

  lemma Dropped(front: string, rest: string)
    ensures (['%'] + (front + rest))[1..] == front + rest
    ensures (['%'] + front + rest)[1 + |front|..] == rest
  {
  }

  lemma BracesJoinedFrom(n: string, b: string, rest: string)
    ensures (['%'] + n + b + rest)[1 + (|n| + |b|)..] == rest
  {
    assert ['%'] + n + b == ['%'] + (n + b);
    Dropped(n + b, rest);
  }

  lemma BracedBehind(a: string, rest: string)
    ensures Braced(a) + rest == Behind(a, rest)
  {
    if a == "" {
      assert "" + rest == rest;
    } else {
      Regrouped(['{'] + a, ['}'], rest);
      Regrouped(['{'], a, ['}'] + rest);
    }
  }

  lemma Printed(n: string, a: string, rest: string)
    ensures var s := Print1(Directive(n, a)) + rest;
      && |s| > |n| + |Braced(a)| && s[0] == '%'
      && s[1..] == n + Behind(a, rest) && s[1 + (|n| + |Braced(a)|)..] == rest
  {
    BracesJoined(n, Braced(a), rest);
    BracedBehind(a, rest);
    Dropped(n, Behind(a, rest));
    BracesJoinedFrom(n, Braced(a), rest);
  }

  lemma DirectiveStarts(n: string, a: string, rest: string)
    requires Spelled(Directive(n, a), rest)
    ensures n + Behind(a, rest) != "" ==> (n + Behind(a, rest))[0] != '%'
  {
    if n != "" {
      assert n[0] in n;
    }
  }

  lemma DirectiveComesBack(n: string, a: string, rest: string, ps: seq<Piece>, text: string)
    requires Spelled(Directive(n, a), rest) && Parsed(rest, "") == ps
    ensures Parsed(Print1(Directive(n, a)) + rest, text) == Flush(text) + ([Directive(n, a)] + ps)
  {
    var s := Print1(Directive(n, a)) + rest;
    DirectiveStarts(n, a, rest);
    Printed(n, a, rest);
    assert |s| > 1 ==> s[1] == s[1..][0];
    if a == "" {
      NameAlone(n, rest);
      DirectiveFirst(s, text, Scanned(Directive(n, a), |n|), n + rest, rest);
    } else {
      BracedAhead(n, a, rest);
      DirectiveFirst(s, text, Scanned(Directive(n, a), |n| + 1 + |a| + 1), n + (['{'] + (a + (['}'] + rest))), rest);
    }
  }

  lemma TextComesBack(t: string, rest: string, ps: seq<Piece>, text: string)
    requires Doubled(t, rest) && t != "" && text == "" && Parsed(rest, t) == Flush(t) + ps
    ensures Parsed(t + rest, text) == Flush(text) + ([Text(t)] + ps)
  {
    TextAhead(t, rest);
  }

  lemma {:induction false} ComesBack(ps: seq<Piece>, text: string)
    requires Canonical(ps) && (text != "" && ps != [] ==> ps[0].Directive?)
    ensures Parsed(Print(ps), text) == Flush(text) + ps
    decreases |ps|
  {
    if ps != [] {
      var rest := Print(ps[1..]);
      assert ps == [ps[0]] + ps[1..];
      match ps[0]
      case Text(t) =>
        ComesBack(ps[1..], t);
        TextComesBack(t, rest, ps[1..], text);
      case Directive(n, a) =>
        ComesBack(ps[1..], "");
        DirectiveComesBack(n, a, rest, ps[1..], text);
    } else {
      assert Flush(text) + ps == Flush(text);
    }
  }

  // ------------------------------------------------------------------ only canonical lists do

  /** What the outer loop does when its run of text ends. */
  lemma RunEnds(s: string)
    ensures Run(s) == |s| ==> Parsed(s, "") == Flush(s)
    ensures Run(s) < |s| ==> Parsed(s, "") == Parsed(s[Run(s)..], s[..Run(s)])
  {
    RunOver(s, Run(s), "");
    assert "" + s[..Run(s)] == s[..Run(s)] && s[..|s|] == s;
  }

  lemma FirstPiece(s: string, text: string)
    requires AtDirective(s, 0)
    ensures Parsed(s, text) != []
    ensures Scan(s[1..]).None? ==> Parsed(s, text)[0].Error?
    ensures Scan(s[1..]).Some? && text == "" ==> Parsed(s, text)[0].Directive?
    ensures Scan(s[1..]).Some? && text != "" ==> Parsed(s, text) == [Text(text)] + Parsed(s, "")
  {
  }

  lemma ErrorFirst(s: string, text: string)
    requires AtDirective(s, 0) && Scan(s[1..]).None?
    ensures Error in Parsed(s, text)
  {
    FirstPiece(s, text);
    assert Parsed(s, text)[0] in Parsed(s, text);
  }

  lemma TextTaken(s: string, t: string, tail: seq<Piece>)
    requires Parsed(s, "") == [Text(t)] + tail
    ensures t != "" && |t| == Run(s) && t == s[..|t|]
    ensures Parsed(s[|t|..], "") == tail && (tail != [] ==> tail[0].Directive?)
  {
    var j := Run(s);
    RunEnds(s);
    if j == |s| {
      assert Parsed(s, "")[0] == Text(t);
    } else {
      StillAt(s, j);
      FirstPiece(s[j..], s[..j]);
      FirstPiece(s[j..], "");
      assert Parsed(s, "")[0] == Text(t);
      assert Parsed(s, "")[1..] == tail;
    }
  }

  /** Where text has been collected, no directive comes first. */
  lemma RunThenText(s: string)
    requires Run(s) > 0
    ensures Parsed(s, "") != [] && !Parsed(s, "")[0].Directive?
  {
    var j := Run(s);
    RunEnds(s);
    if j < |s| {
      StillAt(s, j);
      FirstPiece(s[j..], s[..j]);
    }
  }

  lemma StillAt(s: string, j: nat)
    requires AtDirective(s, j)
    ensures AtDirective(s[j..], 0)
  {
    assert |s[j..]| > 1 ==> s[j..][1] == s[j + 1];
  }

  /** A directive comes first only if the pattern starts with one. */
  lemma NoRun(s: string, p: Piece, tail: seq<Piece>)
    requires Parsed(s, "") == [p] + tail && p.Directive?
    ensures AtDirective(s, 0)
  {
    assert Parsed(s, "")[0] == p;
    if Run(s) > 0 {
      RunThenText(s);
    }
  }

  lemma DirectiveTaken(s: string, p: Piece, tail: seq<Piece>)
    requires Parsed(s, "") == [p] + tail && p.Directive?
    ensures AtDirective(s, 0) && Scan(s[1..]).Some? && Scan(s[1..]).value.directive == p
    ensures Parsed(s[1 + Scan(s[1..]).value.length..], "") == tail
  {
    NoRun(s, p, tail);
    FirstPiece(s, "");
    assert Parsed(s, "")[0] == p && Parsed(s, "")[1..] == tail;
  }

  lemma NameScanned(s: string)
    ensures forall c | c in s[..NameLength(s)] :: InName(c)
  {
  }

  lemma ArgScanned(s: string)
    ensures '}' !in s[..ArgLength(s)]
  {
  }

  /** What the scan took apart. */
  lemma ScanTook(s: string)
    requires Scan(s).Some?
    ensures var d := Scan(s).value;
      && (forall c | c in d.directive.name :: InName(c)) && '}' !in d.directive.arg
      && d.length >= |d.directive.name|
      && (d.directive.arg != "" ==> d.length == |d.directive.name| + |Braced(d.directive.arg)|)
      && (d.length == |d.directive.name| ==> s[d.length..] == "" || (!InName(s[d.length]) && s[d.length] != '{'))
  {
    var n := NameLength(s);
    NameScanned(s);
    if n < |s| && s[n] == '{' {
      ArgScanned(s[n + 1..]);
    }
  }

  lemma PrintFlush(text: string)
    ensures Print(Flush(text)) == text
  {
  }

  lemma {:induction false} PrintJoin(ps: seq<Piece>, qs: seq<Piece>)
    ensures Print(ps + qs) == Print(ps) + Print(qs)
    decreases |ps|
  {
    if ps == [] {
      assert ps + qs == qs;
    } else {
      assert (ps + qs)[1..] == ps[1..] + qs;
      PrintJoin(ps[1..], qs);
    }
  }

  lemma ScanLength(s: string)
    requires Scan(s).Some?
    ensures |Print([Scan(s).value.directive])| <= 1 + Scan(s).value.length
  {
    ScanTook(s);
  }

  /** Unless there is an error, the pieces never spell more than the pattern. */
  lemma {:induction false} PrintedLength(s: string, text: string)
    requires Error !in Parsed(s, text)
    ensures |Print(Parsed(s, text))| <= |text| + |s|
    decreases |s|
  {
    PrintFlush(text);
    if s == "" {
    } else if s[0] != '%' || (|s| > 1 && s[1] == '%') {
      PrintedLength(s[1..], text + [s[0]]);
    } else if Scan(s[1..]).Some? {
      var d := Scan(s[1..]).value;
      var tail := Parsed(s[1 + d.length..], "");
      ScanLength(s[1..]);
      DirectiveFirst(s, text, d, s[1..], s[1 + d.length..]);
      assert forall p | p in tail :: p in Parsed(s, text);
      PrintedLength(s[1 + d.length..], "");
      PrintJoin(Flush(text), [d.directive] + tail);
      PrintJoin([d.directive], tail);
    } else {
      ErrorFirst(s, text);
    }
  }

  lemma TextSpelled(t: string, rest: string, tail: seq<Piece>)
    requires Parsed(t + rest, "") == [Text(t)] + tail
    ensures t != "" && Doubled(t, rest) && Parsed(rest, "") == tail && (tail != [] ==> tail[0].Directive?)
  {
    TextTaken(t + rest, t, tail);
    assert (t + rest)[|t|..] == rest;
    assert forall k | 0 <= k < |t| :: (t + rest)[k] == t[k];
  }

  lemma DirectiveSpelled(n: string, a: string, rest: string, tail: seq<Piece>)
    requires Parsed(Print1(Directive(n, a)) + rest, "") == [Directive(n, a)] + tail
    requires Error !in tail && rest == Print(tail)
    ensures Spelled(Directive(n, a), rest) && Parsed(rest, "") == tail
  {
    var s := Print1(Directive(n, a)) + rest;
    DirectiveTaken(s, Directive(n, a), tail);
    ScanTook(s[1..]);
    Printed(n, a, rest);
    LengthFits(s, n, a, rest, tail);
    if a == "" {
      RestBehind(n, rest);
    }
  }

  lemma LengthFits(s: string, n: string, a: string, rest: string, tail: seq<Piece>)
    requires |s| == 1 + |n| + |Braced(a)| + |rest| && Scan(s[1..]).Some? && Scan(s[1..]).value.directive == Directive(n, a)
    requires Parsed(s[1 + Scan(s[1..]).value.length..], "") == tail && Error !in tail && rest == Print(tail)
    ensures Scan(s[1..]).value.length == |n| + |Braced(a)|
  {
    ScanTook(s[1..]);
    PrintedLength(s[1 + Scan(s[1..]).value.length..], "");
  }

  lemma RestBehind(n: string, rest: string)
    ensures (n + rest)[|n|..] == rest
    ensures rest != "" ==> (n + rest)[|n|] == rest[0] && (n == "" ==> (['%'] + (n + rest))[1] == rest[0])
  {
  }

  lemma {:induction false} OnlyCanonical(ps: seq<Piece>)
    requires Parsed(Print(ps), "") == ps && Error !in ps
    ensures Canonical(ps)
    decreases |ps|
  {
    if ps != [] {
      var tail := ps[1..];
      assert ps == [ps[0]] + tail;
      match ps[0]
      case Text(t) =>
        TextSpelled(t, Print(tail), tail);
        OnlyCanonical(tail);
      case Directive(n, a) =>
        DirectiveSpelled(n, a, Print(tail), tail);
        OnlyCanonical(tail);
      case Error =>
        assert false;
    }
  }

  /** A list of pieces comes back from its printed pattern, without an error, if and only if it
      is canonical. */
  lemma ParseUndoesPrint(ps: seq<Piece>)
    requires Error !in ps
    ensures Parsed(Print(ps), "") == ps <==> Canonical(ps)
  {
    if Canonical(ps) {
      ComesBack(ps, "");
      assert Flush("") + ps == ps;
    } else if Parsed(Print(ps), "") == ps {
      OnlyCanonical(ps);
    }
  }

  // ------------------------------------------------------------------ what that means for patterns

  /** What one writes down: known directives, and texts free of '%' that do not run into the
      directive before them. */
  predicate Plain(ps: seq<Piece>) {
    ps != [] ==>
      && Plain(ps[1..])
      && match ps[0]
         case Text(t) => t != "" && '%' !in t && (|ps| > 1 ==> ps[1].Directive?)
         case Directive(n, a) => n in KNOWN_NAMES && '}' !in a &&
           (a == "" && |ps| > 1 && ps[1].Text? && ps[1].text != "" ==> !InName(ps[1].text[0]) && ps[1].text[0] != '{')
         case Error => false
  }

  lemma FirstChar(ps: seq<Piece>)
    requires ps != [] && !ps[0].Error? && (ps[0].Text? ==> ps[0].text != "")
    ensures Print(ps) != "" && Print(ps)[0] == if ps[0].Text? then ps[0].text[0] else '%'
  {
  }

  lemma NoText(n: string)
    requires n in KNOWN_NAMES
    ensures n != "" && forall c | c in n :: InName(c)
  {
  }

  lemma {:induction false} PlainIsCanonical(ps: seq<Piece>)
    requires Plain(ps)
    ensures Canonical(ps)
    decreases |ps|
  {
    if ps != [] {
      var rest := ps[1..];
      PlainIsCanonical(rest);
      assert rest != [] ==> rest[0] == ps[1];
      if rest != [] {
        FirstChar(rest);
      }
      if ps[0].Directive? {
        NoText(ps[0].name);
      }
    }
  }

  lemma {:induction false} PlainIsGood(ps: seq<Piece>)
    requires Plain(ps)
    ensures forall p | p in ps :: !Bad(p)
    decreases |ps|
  {
    if ps != [] {
      PlainIsGood(ps[1..]);
      assert forall p | p in ps :: p == ps[0] || p in ps[1..];
    }
  }

  /** The twelve directives. */
  lemma KnownNames(n: string)
    ensures n in KNOWN_NAMES <==>
      |n| == 1 && n[0] in {'m', 'p', 'r', 'c', 't', 'n', 'd', 'f', 'l', 'T', 'F', 'N'}
  {
    if |n| == 1 && n[0] in {'m', 'p', 'r', 'c', 't', 'n', 'd', 'f', 'l', 'T', 'F', 'N'} {
      assert n == [n[0]];
    }
  }

  predicate Shows(item: Item, p: Piece) {
    match p
    case Text(t) => item == Literal(t)
    case Directive(n, a) => item == Format(n, a)
    case Error => false
  }

  /** The formatter made from such a pattern has exactly these items and no error: each text as it
      stands, and each directive with its argument. */
  lemma PlainPatternsWork(ps: seq<Piece>)
    requires Plain(ps)
    ensures Items(Parsed(Print(ps), "")) == Items(ps)
    ensures forall i | 0 <= i < |ps| :: Shows(Items(ps)[i], ps[i])
    ensures !exists p | p in Parsed(Print(ps), "") :: Bad(p)
  {
    PlainIsCanonical(ps);
    PlainIsGood(ps);
    assert Error !in ps;
    ParseUndoesPrint(ps);
    forall i | 0 <= i < |ps| ensures Shows(Items(ps)[i], ps[i]) {
      assert ps[i] in ps && !Bad(ps[i]);
    }
  }

  /** Letters, and the brace that the scan for a name does not stop at. */
  predicate NameChar(c: char) {
    'a' <= c <= 'z' || 'A' <= c <= 'Z' || c == '}'
  }

  /** What is scanned behind a '%', character by character: the longest name, and an argument when
      a '{' follows it, up to the first '}'. */
  lemma ScanIs(name: string, rest: string)
    requires (forall c | c in name :: NameChar(c)) && (rest != "" ==> !NameChar(rest[0]))
    ensures rest == "" || rest[0] != '{' ==> Scan(name + rest) == Some(Scanned(Directive(name, ""), |name|))
    ensures rest != "" && rest[0] == '{' ==>
      && ('}' !in rest ==> Scan(name + rest) == None)
      && forall m | 0 < m < |rest| && rest[m] == '}' && '}' !in rest[..m] ::
           Scan(name + rest) == Some(Scanned(Directive(name, rest[1..m]), |name| + m + 1))
  {
    forall c | c in name ensures InName(c) {
      assert NameChar(c);
    }
    NameAhead(name, rest);
    assert (name + rest)[..|name|] == name;
    if rest != "" && rest[0] == '{' {
      NameThenArg(name, rest);
      var behind := rest[1..];
      forall m | 0 < m < |rest| && rest[m] == '}' && '}' !in rest[..m]
        ensures Scan(name + rest) == Some(Scanned(Directive(name, rest[1..m]), |name| + m + 1))
      {
        assert forall k | 0 <= k < m - 1 :: behind[k] == rest[..m][k + 1];
        ArgEnds(behind, m - 1);
        assert behind[..m - 1] == rest[1..m];
      }
      if '}' !in rest {
        assert forall k | 0 <= k < |behind| :: behind[k] == rest[k + 1];
      }
    }
  }

  /** A directive that is not known shows up as a text that says so. */
  lemma UnknownShows(name: string, rest: string)
    requires name !in KNOWN_NAMES && (forall c | c in name :: NameChar(c)) && name != ""
    requires rest != "" ==> !NameChar(rest[0]) && rest[0] != '{'
    ensures Parsed(['%'] + name + rest, "") == [Directive(name, "")] + Parsed(rest, "")
    ensures Items([Directive(name, "")]) == [Literal("<<unknow format: %" + name + ">>")] && Bad(Directive(name, ""))
  {
    var s := ['%'] + name + rest;
    assert s[1..] == name + rest;
    assert NameChar(name[0]);
    ScanIs(name, rest);
    assert s[1 + |name|..] == rest;
    DirectiveFirst(s, "", Scanned(Directive(name, ""), |name|), s[1..], rest);
  }

  /** An argument that is never closed is an error, and all that is left of the pattern is text,
      behind the error together with the text before it. */
  lemma UnclosedKeepsText(t: string, name: string, arg: string)
    requires '%' !in t && (forall c | c in name :: NameChar(c)) && '}' !in arg && '%' !in arg
    ensures var s := t + (['%'] + (name + (['{'] + arg)));
      && Parsed(s, "") == [Error, Text(t + (name + (['{'] + arg)))]
      && Items(Parsed(s, "")) == [Literal("<<pattern_error>>"), Literal(t + (name + (['{'] + arg)))] && Bad(Error)
  {
    var behind := name + (['{'] + arg);
    var rest := ['%'] + behind;
    TextAhead(t, rest);
    ScanIs(name, ['{'] + arg);
    assert behind[0] != '%' by {
      if name != "" {
        assert NameChar(name[0]);
      }
    }
    assert rest[1..] == behind && AtDirective(rest, 0);
    assert Parsed(rest, t) == [Error] + Parsed(behind, t);
    NoPercent(name, arg);
    RunOver(behind, |behind|, t);
    assert behind[|behind|..] == "" && behind[..|behind|] == behind;
  }

  lemma NoPercent(name: string, arg: string)
    requires (forall c | c in name :: NameChar(c)) && '%' !in arg
    ensures '%' !in name + (['{'] + arg)
  {
    forall c | c in name ensures c != '%' {
      assert NameChar(c);
    }
  }

  predicate EmptyBracesAt(s: string, k: nat) {
    k + 1 < |s| && s[k] == '{' && s[k + 1] == '}'
  }

  ghost predicate NoEmptyBraces(s: string) {
    forall k: nat :: !EmptyBracesAt(s, k)
  }

  lemma NoneBehind(s: string, i: nat)
    requires NoEmptyBraces(s) && i <= |s|
    ensures NoEmptyBraces(s[i..])
  {
    forall k: nat ensures !EmptyBracesAt(s[i..], k) {
      assert !EmptyBracesAt(s, i + k);
    }
  }

  lemma ScanKeeps(s: string)
    requires Scan(s).Some? && NoEmptyBraces(s)
    ensures var d := Scan(s).value; d.directive.name + Braced(d.directive.arg) == s[..d.length]
  {
    var n := NameLength(s);
    if n < |s| && s[n] == '{' {
      assert !EmptyBracesAt(s, n);
      var m := ArgLength(s[n + 1..]);
      if n + 1 < |s| {
        assert s[n + 1..][0] == s[n + 1];
      }
      BracesKept(s, n, m);
    }
  }

  lemma BracesKept(s: string, n: nat, m: nat)
    requires n < |s| && s[n] == '{' && m < |s[n + 1..]| && s[n + 1..][m] == '}'
    ensures s[..n] + (['{'] + s[n + 1..][..m] + ['}']) == s[..n + 1 + m + 1]
  {
    assert s[n + 1..][..m] == s[n + 1..n + 1 + m];
    assert s[n + 1 + m] == '}';
    assert ['{'] + s[n + 1..n + 1 + m] == s[n..n + 1 + m];
    assert s[n..n + 1 + m] + ['}'] == s[n..n + 1 + m + 1];
  }

  /** A pattern without empty braces is what its pieces spell, unless there is an error. */
  lemma {:induction false} PrintUndoesParse(s: string, text: string)
    requires Error !in Parsed(s, text) && NoEmptyBraces(s)
    ensures Print(Parsed(s, text)) == text + s
    decreases |s|
  {
    if s == "" {
      PrintFlush(text);
      assert text + s == text;
    } else if s[0] != '%' || (|s| > 1 && s[1] == '%') {
      NoneBehind(s, 1);
      TextFirst(s, text);
      PrintUndoesParse(s[1..], text + [s[0]]);
      TextJoined(s, text);
    } else if Scan(s[1..]).Some? {
      var d := Scan(s[1..]).value;
      var rest := s[1 + d.length..];
      TailFree(s, text, d, rest);
      NoneBehind(s, 1 + d.length);
      PrintUndoesParse(rest, "");
      DirectiveKept(s, text, d, rest);
    } else {
      ErrorFirst(s, text);
    }
  }

  lemma TextJoined(s: string, text: string)
    requires s != ""
    ensures text + [s[0]] + s[1..] == text + s
  {
  }

  lemma TextFirst(s: string, text: string)
    requires s != "" && (s[0] != '%' || (|s| > 1 && s[1] == '%'))
    ensures Parsed(s, text) == Parsed(s[1..], text + [s[0]])
  {
  }

  lemma TailFree(s: string, text: string, d: Scanned, rest: string)
    requires AtDirective(s, 0) && Scan(s[1..]) == Some(d) && rest == s[1 + d.length..] && Error !in Parsed(s, text)
    ensures Error !in Parsed(rest, "")
  {
    DirectiveFirst(s, text, d, s[1..], rest);
    assert forall p | p in Parsed(rest, "") :: p in Parsed(s, text);
  }

  lemma DirectiveKept(s: string, text: string, d: Scanned, rest: string)
    requires AtDirective(s, 0) && Scan(s[1..]) == Some(d) && rest == s[1 + d.length..]
    requires NoEmptyBraces(s) && Print(Parsed(rest, "")) == "" + rest
    ensures Print(Parsed(s, text)) == text + s
  {
    var tail := Parsed(rest, "");
    DirectiveFirst(s, text, d, s[1..], rest);
    PrintJoin(Flush(text), [d.directive] + tail);
    PrintFlush(text);
    PrintFirst(d.directive, tail);
    NoneBehind(s, 1);
    ScanKeeps(s[1..]);
    Rejoined(s, d.directive.name, Braced(d.directive.arg), d.length);
    assert "" + rest == rest;
  }

  lemma PrintFirst(p: Piece, tail: seq<Piece>)
    ensures Print([p] + tail) == Print1(p) + Print(tail)
  {
    assert ([p] + tail)[1..] == tail;
  }

  lemma Rejoined(s: string, n: string, b: string, length: nat)
    requires s != "" && s[0] == '%' && length < |s| && n + b == s[1..][..length]
    ensures (['%'] + n + b) + s[1 + length..] == s
  {
    assert ['%'] + n + b == ['%'] + (n + b);
    assert s[1..][..length] == s[1..1 + length];
  }
}
