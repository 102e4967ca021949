/** The layout pattern of log lines, such as "%d{%H:%M} [%p] %m%n". */
module LogFormatters {
  import opened Common

  /** What the first pass finds. A directive whose '{' is never closed is an error. */
  datatype Piece = Text(text: string) | Directive(name: string, arg: string) | Error

  datatype Item = Literal(text: string) | Format(name: string, arg: string)

  predicate IsAlpha(c: char) {
    'a' <= c <= 'z' || 'A' <= c <= 'Z'
  }

  /** The characters that the scan for a directive's name runs over; '}' is one of them. */
  predicate InName(c: char) {
    IsAlpha(c) || c == '}'
  }

  /** How many characters at the front belong to the name. */
  function NameLength(s: string): (n: nat)
    ensures n <= |s| && (forall k | 0 <= k < n :: InName(s[k])) && (n < |s| ==> !InName(s[n]))
  {
    if s == "" || !InName(s[0]) then 0 else 1 + NameLength(s[1..])
  }

  function ArgLength(s: string): (n: nat)
    ensures n <= |s| && (forall k | 0 <= k < n :: s[k] != '}') && (n < |s| ==> s[n] == '}')
  {
    if s == "" || s[0] == '}' then 0 else 1 + ArgLength(s[1..])
  }

  /** A directive and the number of characters it takes up. */
  datatype Scanned = Scanned(directive: Piece, length: nat)

  /** Scans what follows a '%'. */
  function Scan(s: string): (d: Option<Scanned>)
    ensures d.Some? ==> d.value.length <= |s| && d.value.directive.Directive?
  {
    var n := NameLength(s);
    if n == |s| || s[n] != '{' then Some(Scanned(Directive(s[..n], ""), n)) else ScanArg(s[..n], s[n + 1..])
  }

  /** Scans what follows the '{' behind a name. */
  function ScanArg(name: string, s: string): (d: Option<Scanned>)
    ensures d.Some? ==> d.value.length <= |name| + 1 + |s| && d.value.directive.Directive?
  {
    var m := ArgLength(s);
    if m == |s| then None else Some(Scanned(Directive(name, s[..m]), |name| + 1 + m + 1))
  }

  function Flush(text: string): seq<Piece> {
    if text == "" then [] else [Text(text)]
  }

  /** The pieces of pattern `s`, when `text` has been collected in front of it. */
  function Parsed(s: string, text: string): seq<Piece>
    decreases |s|
  {
    if s == "" then Flush(text)
    else if s[0] != '%' then Parsed(s[1..], text + [s[0]])
    else if |s| > 1 && s[1] == '%' then Parsed(s[1..], text + ['%'])
    else match Scan(s[1..])
      case Some(d) => Flush(text) + [d.directive] + Parsed(s[1 + d.length..], "")
      case None => [Error] + Parsed(s[1..], text)
  }

  // ------------------------------------------------------------------ items

  const KNOWN_NAMES: set<string> := {"m", "p", "r", "c", "t", "n", "d", "f", "l", "T", "F", "N"}

  predicate Bad(p: Piece) {
    p.Error? || (p.Directive? && p.name !in KNOWN_NAMES)
  }

  function ItemOf(p: Piece): Item {
    match p
    case Text(t) => Literal(t)
    case Directive(n, a) => if n in KNOWN_NAMES then Format(n, a) else Literal("<<unknow format: %" + n + ">>")
    case Error => Literal("<<pattern_error>>")
  }

  function Items(ps: seq<Piece>): (items: seq<Item>)
    ensures |items| == |ps| && forall i | 0 <= i < |ps| :: items[i] == ItemOf(ps[i])
  {
    seq(|ps|, i requires 0 <= i < |ps| => ItemOf(ps[i]))
  }

  class LogFormatter {
    const pattern: string
    var items: seq<Item>
    var hasError: bool

    constructor (pattern: string)
      ensures this.pattern == pattern
      ensures items == Items(Parsed(pattern, ""))
      ensures hasError <==> exists p | p in Parsed(pattern, "") :: Bad(p)
    {
      this.pattern := pattern;
      items, hasError := [], false;
      new;
      Parse();
    }

    /** Splits the pattern into pieces and makes an item of each. */
    method Parse()
      modifies this
      ensures items == old(items) + Items(Parsed(pattern, ""))
      ensures hasError <==> old(hasError) || exists p | p in Parsed(pattern, "") :: Bad(p)
    {
      var pieces := Split();
      for i := 0 to |pieces|
        invariant items == old(items) + Items(pieces[..i])
        invariant hasError <==> old(hasError) || Error in pieces || exists k | 0 <= k < i :: Bad(pieces[k])
      {
        assert Items(pieces[..i + 1]) == Items(pieces[..i]) + [ItemOf(pieces[i])];
        if pieces[i].Directive? && pieces[i].name !in KNOWN_NAMES {
          hasError := true;
        }
        items := items + [ItemOf(pieces[i])];
      }
      assert pieces[..|pieces|] == pieces;
    }

    method Split() returns (pieces: seq<Piece>)
      modifies this`hasError
      ensures pieces == Parsed(pattern, "")
      ensures hasError <==> old(hasError) || Error in pieces
    {
      pieces := [];
      var text, i := "", 0;
      while i < |pattern|
        invariant 0 <= i <= |pattern|
        invariant Left(pattern, i, pieces, text)
        invariant hasError <==> old(hasError) || Error in pieces
      {
        if pattern[i] != '%' {
          TextStep(pattern, i, pieces, text);
          text := text + [pattern[i]];
          i := i + 1;
        } else if i + 1 < |pattern| && pattern[i + 1] == '%' {
          TextStep(pattern, i, pieces, text);
          text := text + ['%'];
          i := i + 1;
        } else {
          i, pieces, text := TakeDirective(i, pieces, text);
        }
      }
      if text != "" {
        pieces := pieces + [Text(text)];
      }
    }

    /** The '%' at index `i` starts a directive, or else an error. */
    method TakeDirective(i: nat, pieces: seq<Piece>, text: string) returns (next: nat, pieces': seq<Piece>, text': string)
      requires AtDirective(pattern, i) && Left(pattern, i, pieces, text)
      modifies this`hasError
      ensures i < next <= |pattern| && Left(pattern, next, pieces', text')
      ensures hasError == (old(hasError) || Scan(pattern[i + 1..]).None?)
      ensures Error in pieces' <==> Error in pieces || Scan(pattern[i + 1..]).None?
    {
      pieces', text' := pieces, text;
      var d := ScanDirective(i);
      if d.Some? {
        if text != "" {
          FlushStep(pattern, i, pieces, text);
          pieces', text' := pieces + [Text(text)], "";
        }
        DirectiveStep(pattern, i, pieces', d.value);
        pieces' := pieces' + [d.value.directive];
        next := i + 1 + d.value.length;
      } else {
        ErrorStep(pattern, i, pieces, text);
        hasError := true;
        pieces' := pieces + [Error];
        next := i + 1;
      }
    }

    /** Scans a directive from the '%' at index `i`. */
    method ScanDirective(i: nat) returns (d: Option<Scanned>)
      requires i < |pattern| && pattern[i] == '%'
      ensures d == Scan(pattern[i + 1..])
    {
      var n, inArg, begin := i + 1, false, 0;
      var name, arg := "", "";
      while n < |pattern|
        invariant i < n <= |pattern|
        invariant !inArg ==> NamesIn(pattern, i + 1, n)
        invariant !inArg ==> name == if n == |pattern| then pattern[i + 1..n] else ""
        invariant inArg ==> i < begin < n && pattern[begin] == '{' && NamesIn(pattern, i + 1, begin)
        invariant inArg ==> OpenIn(pattern, begin + 1, n)
        invariant inArg ==> name == pattern[i + 1..begin] || n == |pattern|
        invariant arg == ""
      {
        if !inArg && !InName(pattern[n]) && pattern[n] != '{' {
          name := pattern[i + 1..n];
          break;
        }
        if !inArg && pattern[n] == '{' {
          name := pattern[i + 1..n];
          inArg, begin := true, n;
          n := n + 1;
          continue;
        } else if inArg && pattern[n] == '}' {
          arg := pattern[begin + 1..n];
          ArgFound(pattern, i, begin, n);
          return Some(Scanned(Directive(name, arg), n - i));
        }
        n := n + 1;
        if n == |pattern| && name == "" {
          name := pattern[i + 1..];
        }
      }
      if inArg {
        NoClose(pattern, i, begin);
        return None;
      }
      NoArg(pattern, i, n);
      return Some(Scanned(Directive(name, arg), n - i - 1));
    }
  }

  /** What is left from index `i` on completes the pieces of the pattern. */
  ghost predicate Left(p: string, i: nat, pieces: seq<Piece>, text: string)
    requires i <= |p|
  {
    pieces + Parsed(p[i..], text) == Parsed(p, "")
  }

  /** The ways in which the outer loop goes on from index `i`. */
  lemma TextStep(p: string, i: nat, pieces: seq<Piece>, text: string)
    requires i < |p| && (p[i] != '%' || (i + 1 < |p| && p[i + 1] == '%'))
    requires Left(p, i, pieces, text)
    ensures Left(p, i + 1, pieces, text + [p[i]])
  {
    assert p[i..][1..] == p[i + 1..];
  }

  ghost predicate AtDirective(p: string, i: nat) {
    i < |p| && p[i] == '%' && (i + 1 < |p| ==> p[i + 1] != '%')
  }

  lemma FlushStep(p: string, i: nat, pieces: seq<Piece>, text: string)
    requires AtDirective(p, i) && Scan(p[i + 1..]).Some? && text != ""
    requires Left(p, i, pieces, text)
    ensures Left(p, i, pieces + [Text(text)], "")
  {
    assert p[i..][1..] == p[i + 1..];
    assert Parsed(p[i..], text) == [Text(text)] + Parsed(p[i..], "");
  }

  lemma DirectiveStep(p: string, i: nat, pieces: seq<Piece>, d: Scanned)
    requires AtDirective(p, i) && Scan(p[i + 1..]) == Some(d)
    requires Left(p, i, pieces, "")
    ensures Left(p, i + 1 + d.length, pieces + [d.directive], "")
  {
    assert p[i..][1..] == p[i + 1..] && p[i..][1 + d.length..] == p[i + 1 + d.length..];
  }

  lemma ErrorStep(p: string, i: nat, pieces: seq<Piece>, text: string)
    requires AtDirective(p, i) && Scan(p[i + 1..]) == None
    requires Left(p, i, pieces, text)
    ensures Left(p, i + 1, pieces + [Error], text)
  {
    assert p[i..][1..] == p[i + 1..];
  }

  ghost predicate NamesIn(p: string, lo: nat, hi: nat)
    requires hi <= |p|
  {
    forall k | lo <= k < hi :: InName(p[k])
  }

  /** No argument is closed between the indices. */
  ghost predicate OpenIn(p: string, lo: nat, hi: nat)
    requires hi <= |p|
  {
    forall k | lo <= k < hi :: p[k] != '}'
  }

  /** The three ways in which the scan from the '%' at index `i` ends. */
  lemma NoArg(p: string, i: nat, n: nat)
    requires i < n <= |p| && NamesIn(p, i + 1, n) && (n < |p| ==> !InName(p[n]) && p[n] != '{')
    ensures Scan(p[i + 1..]) == Some(Scanned(Directive(p[i + 1..n], ""), n - i - 1))
  {
    NameEnds(p, i, n);
    assert p[i + 1..][..n - i - 1] == p[i + 1..n];
  }

  lemma NoClose(p: string, i: nat, begin: nat)
    requires i < begin < |p| && NamesIn(p, i + 1, begin) && p[begin] == '{' && OpenIn(p, begin + 1, |p|)
    ensures Scan(p[i + 1..]) == None
  {
    ScansArg(p, i, begin);
    var rest := p[begin + 1..];
    assert forall k | 0 <= k < |rest| :: rest[k] == p[begin + 1 + k];
  }

  lemma ArgFound(p: string, i: nat, begin: nat, n: nat)
    requires i < begin < n < |p| && NamesIn(p, i + 1, begin) && p[begin] == '{'
    requires OpenIn(p, begin + 1, n) && p[n] == '}'
    ensures Scan(p[i + 1..]) == Some(Scanned(Directive(p[i + 1..begin], p[begin + 1..n]), n - i))
  {
    ScansArg(p, i, begin);
    ArgIs(p, begin, n);
    assert p[begin + 1..][..n - begin - 1] == p[begin + 1..n];
  }

  lemma ScansArg(p: string, i: nat, begin: nat)
    requires i < begin < |p| && NamesIn(p, i + 1, begin) && p[begin] == '{'
    ensures Scan(p[i + 1..]) == ScanArg(p[i + 1..begin], p[begin + 1..])
  {
    NameEnds(p, i, begin);
    assert p[i + 1..][..begin - i - 1] == p[i + 1..begin];
    assert p[i + 1..][begin - i..] == p[begin + 1..];
  }

  lemma ArgIs(p: string, begin: nat, n: nat)
    requires begin < n < |p| && OpenIn(p, begin + 1, n) && p[n] == '}'
    ensures ArgLength(p[begin + 1..]) == n - begin - 1
  {
    ArgEnds(p[begin + 1..], n - begin - 1);
  }

  lemma NameEnds(p: string, i: nat, n: nat)
    requires i < n <= |p| && NamesIn(p, i + 1, n) && (n < |p| ==> !InName(p[n]))
    ensures NameLength(p[i + 1..]) == n - i - 1
  {
    NameFound(p[i + 1..], n - i - 1);
  }

  lemma NameFound(s: string, n: nat)
    requires n <= |s| && (forall k | 0 <= k < n :: InName(s[k])) && (n < |s| ==> !InName(s[n]))
    ensures NameLength(s) == n
  {
  }

  lemma ArgEnds(t: string, n: nat)
    requires n < |t| && (forall k | 0 <= k < n :: t[k] != '}') && t[n] == '}'
    ensures ArgLength(t) == n
  {
  }
}
