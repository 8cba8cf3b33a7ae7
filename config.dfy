/**
 * The key/value file of service/Config.cc. Each lookup rewinds the file
 * and reads it line by line: lines starting with '#' and lines without a
 * token are skipped, and the first line whose first token is the name
 * supplies the value (its next token, or all its remaining tokens);
 * without a match, or without a file, the caller's default is returned.
 * Tokens are maximal runs of characters other than space, tab and newline.
 */
module Config {
  import opened Wrappers

  predicate IsDelim(c: char)
  {
    c == ' ' || c == '\t' || c == '\n'
  }

  /** A token: non-empty and free of delimiters. */
  predicate IsToken(t: string)
  {
    |t| > 0 && forall k :: 0 <= k < |t| ==> !IsDelim(t[k])
  }

  /** The length of the run of non-delimiters at the start of s. */
  function RunLength(s: string): (n: nat)
    ensures n <= |s|
    ensures forall k :: 0 <= k < n ==> !IsDelim(s[k])
    ensures n < |s| ==> IsDelim(s[n])
  {
    if s == [] || IsDelim(s[0]) then 0 else 1 + RunLength(s[1..])
  }

  /** The tokens of a line, in order, as successive strtok_r calls return them. */
  function Tokens(s: string): (r: seq<string>)
    ensures forall i :: 0 <= i < |r| ==> IsToken(r[i])
    decreases |s|
  {
    if s == [] then []
    else if IsDelim(s[0]) then Tokens(s[1..])
    else
      var n := RunLength(s);
      [s[..n]] + Tokens(s[n..])
  }

  /** Tokens written out with one space between them. */
  function Join(ts: seq<string>): string
  {
    if ts == [] then [] else if |ts| == 1 then ts[0] else ts[0] + " " + Join(ts[1..])
  }

  lemma {:induction false} RunOfToken(t: string, rest: string)
    requires IsToken(t)
    requires rest == [] || IsDelim(rest[0])
    ensures RunLength(t + rest) == |t|
    decreases |t|
  {
    if |t| > 1 {
      assert (t + rest)[1..] == t[1..] + rest;
      RunOfToken(t[1..], rest);
    } else {
      assert (t + rest)[1..] == rest;
    }
  }

  /** Splitting the joined tokens gives the tokens back. */
  lemma {:induction false} TokensOfJoin(ts: seq<string>)
    requires forall i :: 0 <= i < |ts| ==> IsToken(ts[i])
    ensures Tokens(Join(ts)) == ts
    decreases |ts|
  {
    if |ts| == 1 {
      RunOfToken(ts[0], []);
      assert ts[0][..|ts[0]|] == ts[0];
      assert ts[0][|ts[0]|..] == [];
    } else if |ts| > 1 {
      var s := ts[0] + " " + Join(ts[1..]);
      var rest := " " + Join(ts[1..]);
      assert s == ts[0] + rest;
      RunOfToken(ts[0], rest);
      assert s[..|ts[0]|] == ts[0];
      assert s[|ts[0]|..] == rest;
      assert rest[1..] == Join(ts[1..]);
      TokensOfJoin(ts[1..]);
      assert ts == [ts[0]] + ts[1..];
    }
  }

  /** A line the lookup may take its value from: not a comment, and with at least one token. */
  predicate Candidate(line: string)
  {
    !(|line| > 0 && line[0] == '#') && Tokens(line) != []
  }

  predicate Matches(line: string, name: string)
  {
    Candidate(line) && Tokens(line)[0] == name
  }

  /** The index of the first line that supplies name's value. */
  function FirstMatch(lines: seq<string>, name: string): (r: Option<nat>)
    ensures r.Some? ==> r.value < |lines| && Matches(lines[r.value], name)
    ensures r.Some? ==> forall j :: 0 <= j < r.value ==> !Matches(lines[j], name)
    ensures r.None? ==> forall j :: 0 <= j < |lines| ==> !Matches(lines[j], name)
  {
    if lines == [] then None
    else if Matches(lines[0], name) then Some(0)
    else
      var r := FirstMatch(lines[1..], name);
      if r.Some? then Some(r.value + 1) else None
  }

  /** Lines after the first match never change the result. */
  lemma LaterLinesIgnored(lines: seq<string>, more: seq<string>, name: string)
    requires FirstMatch(lines, name).Some?
    ensures FirstMatch(lines + more, name) == FirstMatch(lines, name)
  {
    var i := FirstMatch(lines, name).value;
    var all := lines + more;
    assert forall j :: 0 <= j <= i ==> all[j] == lines[j];
    MatchIsFirst(all, name, i);
  }

  /** A comment line matches nothing, whatever follows the '#'. */
  lemma CommentSkipped(comment: string, lines: seq<string>, name: string)
    requires |comment| > 0 && comment[0] == '#'
    ensures FirstMatch([comment] + lines, name) == (var r := FirstMatch(lines, name); if r.Some? then Some(r.value + 1) else None)
  {
    assert ([comment] + lines)[1..] == lines;
  }

  /** Result<bool>: true iff the argument starts with 't' or 'T'. */
  function ToBool(arg: string): (r: bool)
    ensures r <==> |arg| > 0 && (arg[0] == 't' || arg[0] == 'T')
  {
    |arg| > 0 && (arg[0] == 't' || arg[0] == 'T')
  }

  /**
   * One strtok_r call from position pos: skips delimiters, then takes the
   * run that follows. None when only delimiters remain.
   */
  method NextToken(s: string, pos: nat) returns (tok: Option<string>, next: nat)
    requires pos <= |s|
    ensures next <= |s|
    ensures tok.None? ==> Tokens(s[pos..]) == []
    ensures tok.Some? ==> Tokens(s[pos..]) == [tok.value] + Tokens(s[next..])
  {
    var i := SkipDelims(s, pos);
    if i == |s| {
      assert s[i..] == [];
      return None, i;
    }
    var j := RunEnd(s, i);
    TokenAt(s, i, j);
    tok, next := Some(s[i..j]), j;
  }

  /** The delimiters strtok_r skips before a token: they add no tokens. */
  method SkipDelims(s: string, pos: nat) returns (i: nat)
    requires pos <= |s|
    ensures pos <= i <= |s| && (i < |s| ==> !IsDelim(s[i]))
    ensures Tokens(s[pos..]) == Tokens(s[i..])
  {
    i := pos;
    while i < |s| && IsDelim(s[i])
      invariant pos <= i <= |s|
      invariant Tokens(s[pos..]) == Tokens(s[i..])
    {
      assert s[i..][1..] == s[i + 1..];
      i := i + 1;
    }
  }

  /** The end of the run of non-delimiters starting at i. */
  method RunEnd(s: string, i: nat) returns (j: nat)
    requires i < |s| && !IsDelim(s[i])
    ensures i < j <= |s| && (j < |s| ==> IsDelim(s[j]))
    ensures forall k :: i <= k < j ==> !IsDelim(s[k])
  {
    j := i + 1;
    while j < |s| && !IsDelim(s[j])
      invariant i < j <= |s|
      invariant forall k :: i <= k < j ==> !IsDelim(s[k])
    {
      j := j + 1;
    }
  }

  /** A maximal run of non-delimiters at i is the next token. */
  lemma TokenAt(s: string, i: nat, j: nat)
    requires i < j <= |s| && (j < |s| ==> IsDelim(s[j]))
    requires forall k :: i <= k < j ==> !IsDelim(s[k])
    ensures Tokens(s[i..]) == [s[i..j]] + Tokens(s[j..])
  {
    assert s[i..j][0] == s[i];
    RunOfToken(s[i..j], s[j..]);
    assert s[i..] == s[i..j] + s[j..];
    assert s[i..][..j - i] == s[i..j];
    assert s[i..][j - i..] == s[j..];
  }

  /** ResultSeq: every remaining token of the line from pos, converted in order. */
  method RemainingTokens<T>(s: string, pos: nat, conv: string -> T) returns (v: seq<T>)
    requires pos <= |s|
    ensures v == Converted(Tokens(s[pos..]), conv)
  {
    v := [];
    var p := pos;
    while true
      invariant p <= |s|
      invariant v + Converted(Tokens(s[p..]), conv) == Converted(Tokens(s[pos..]), conv)
      decreases |s| - p
    {
      var tok, next := NextToken(s, p);
      if tok.None? {
        ConvertedStep(v, Tokens(s[p..]), None, [], conv);
        return;
      }
      TokensShrink(s, p, next, tok.value);
      ConvertedStep(v, Tokens(s[p..]), tok, Tokens(s[next..]), conv);
      v, p := v + [conv(tok.value)], next;
    }
  }

  /** A successful strtok_r step moves forward. */
  lemma TokensShrink(s: string, q: nat, p: nat, t: string)
    requires q <= |s| && p <= |s|
    requires Tokens(s[q..]) == [t] + Tokens(s[p..])
    ensures p > q
  {
    if p <= q {
      TokensLength(s, p, q);
      assert |Tokens(s[q..])| <= |Tokens(s[p..])|;
      assert false;
    }
  }

  /** Starting later never yields more tokens. */
  lemma {:induction false} TokensLength(s: string, p: nat, q: nat)
    requires p <= q <= |s|
    ensures |Tokens(s[q..])| <= |Tokens(s[p..])|
    decreases q - p
  {
    if p < q {
      TokensLength(s, p + 1, q);
      TokensStep(s[p..]);
      assert s[p..][1..] == s[p + 1..];
    }
  }

  lemma TokensStep(s: string)
    requires s != []
    ensures |Tokens(s[1..])| <= |Tokens(s)|
  {
    if !IsDelim(s[0]) {
      var n := RunLength(s);
      if n > 1 {
        assert RunLength(s[1..]) == n - 1;
        assert s[1..][n - 1..] == s[n..];
      } else {
        assert s[1..] == s[n..];
      }
    }
  }

  function Converted<T>(ts: seq<string>, conv: string -> T): (r: seq<T>)
    ensures |r| == |ts|
    ensures forall i :: 0 <= i < |ts| ==> r[i] == conv(ts[i])
  {
    seq(|ts|, i requires 0 <= i < |ts| => conv(ts[i]))
  }

  /** One strtok_r step of ResultSeq: the token found, if any, is converted and the rest follows. */
  lemma ConvertedStep<T>(v: seq<T>, ts: seq<string>, tok: Option<string>, rest: seq<string>, conv: string -> T)
    requires tok.None? ==> ts == [] && rest == []
    requires tok.Some? ==> ts == [tok.value] + rest
    ensures tok.None? ==> v + Converted(ts, conv) == v
    ensures tok.Some? ==> v + Converted(ts, conv) == (v + [conv(tok.value)]) + Converted(rest, conv)
  {
    if tok.Some? {
      ConvertedAppend([tok.value], rest, conv);
    } else {
      assert Converted(ts, conv) == [];
    }
  }

  lemma ConvertedAppend<T>(a: seq<string>, b: seq<string>, conv: string -> T)
    ensures Converted(a + b, conv) == Converted(a, conv) + Converted(b, conv)
  {
  }

  /**
   * A configuration file: the lines it holds, or None when it could not be
   * opened. Lookups change nothing: each starts from the top of the file.
   */
  class File {
    const lines: Option<seq<string>>

    constructor (lines: Option<seq<string>>)
      ensures this.lines == lines
    {
      this.lines := lines;
    }

    /**
     * The scan shared by both lookups: the index of the first line that
     * matches, and the position just after its name.
     */
    method Locate(name: string) returns (found: Option<nat>, rest: nat)
      requires lines.Some?
      ensures found == FirstMatch(lines.value, name)
      ensures found.Some? ==> rest <= |lines.value[found.value]|
      ensures found.Some? ==> Tokens(lines.value[found.value][rest..]) == Tokens(lines.value[found.value])[1..]
    {
      var ls := lines.value;
      var i := 0;
      found, rest := None, 0;
      while i < |ls|
        invariant 0 <= i <= |ls|
        invariant forall j :: 0 <= j < i ==> !Matches(ls[j], name)
      {
        var line := ls[i];
        if |line| > 0 && line[0] == '#' {
          i := i + 1;
          continue;
        }
        var tok, next := NextToken(line, 0);
        assert line[0..] == line;
        if tok.None? {
          i := i + 1;
          continue;
        }
        if tok.value == name {
          found, rest := Some(i), next;
          MatchIsFirst(ls, name, i);
          return;
        }
        i := i + 1;
      }
      NoMatch(ls, name);
    }

    /**
     * config(name, def) for a scalar. None stands for the case the source
     * leaves undefined: the matching line has no argument, and the null
     * token is handed to the conversion.
     */
    method Scalar<T>(name: string, def: T, conv: string -> T) returns (r: Option<T>)
      ensures lines.None? ==> r == Some(def)
      ensures lines.Some? && FirstMatch(lines.value, name).None? ==> r == Some(def)
      ensures lines.Some? && FirstMatch(lines.value, name).Some? ==>
        var ts := Tokens(lines.value[FirstMatch(lines.value, name).value]);
        r == (if |ts| >= 2 then Some(conv(ts[1])) else None)
    {
      if lines.None? {
        return Some(def);
      }
      var found, rest := Locate(name);
      if found.None? {
        return Some(def);
      }
      var arg, _ := NextToken(lines.value[found.value], rest);
      r := if arg.Some? then Some(conv(arg.value)) else None;
    }

    /** config(name, def) for a vector: every token after the name on the matching line. */
    method Vector<T>(name: string, def: seq<T>, conv: string -> T) returns (r: seq<T>)
      ensures lines.None? ==> r == def
      ensures lines.Some? && FirstMatch(lines.value, name).None? ==> r == def
      ensures lines.Some? && FirstMatch(lines.value, name).Some? ==>
        r == Converted(Tokens(lines.value[FirstMatch(lines.value, name).value])[1..], conv)
    {
      if lines.None? {
        return def;
      }
      var found, rest := Locate(name);
      if found.None? {
        return def;
      }
      r := RemainingTokens(lines.value[found.value], rest, conv);
    }
  }

  lemma MatchIsFirst(ls: seq<string>, name: string, i: nat)
    requires i < |ls| && Matches(ls[i], name)
    requires forall j :: 0 <= j < i ==> !Matches(ls[j], name)
    ensures FirstMatch(ls, name) == Some(i)
  {
  }

  lemma NoMatch(ls: seq<string>, name: string)
    requires forall j :: 0 <= j < |ls| ==> !Matches(ls[j], name)
    ensures FirstMatch(ls, name) == None
  {
  }
}
