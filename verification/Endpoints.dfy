/** Comma-separated endpoint lists (src/app_server.c): the loop that counts
    them, and the loops that take them apart in place with strtok. */
module Endpoints {
  import opened Common
  import opened Text

  const NUL := '\0'

  /** The C string that starts at index `i` of a character buffer. */
  function CString(b: seq<char>, i: nat): (s: string)
    decreases |b| - i
  {
    if i >= |b| || b[i] == NUL then [] else [b[i]] + CString(b, i + 1)
  }

  function NonBlank(ss: seq<string>): seq<string> {
    if ss == [] then [] else (if ss[0] == [] then [] else [ss[0]]) + NonBlank(ss[1..])
  }

  /** What strtok with the delimiter "," finds in `s`, one call after the other
      (section 7.24.5.8 of ISO/IEC 9899:2011). */
  function Tokens(s: string): seq<string> {
    NonBlank(Split(s, ','))
  }

  /** `s` without the spaces at its front. */
  function StripSpaces(s: string): (r: string)
    ensures r == [] || r[0] != ' '
    ensures |r| <= |s| && r == s[|s| - |r|..] && forall j :: 0 <= j < |s| - |r| ==> s[j] == ' '
  {
    if s != [] && s[0] == ' ' then
      var r := StripSpaces(s[1..]);
      assert forall j :: 0 < j < |s| - |r| ==> s[j] == s[1..][j - 1];
      r
    else
      s
  }

  function Stripped(ss: seq<string>): (r: seq<string>)
    ensures |r| == |ss| && forall i :: 0 <= i < |r| ==> r[i] == StripSpaces(ss[i])
  {
    seq(|ss|, i requires 0 <= i < |ss| => StripSpaces(ss[i]))
  }

  // ----- facts about segments and tokens -----

  lemma {:induction false} NonBlankAppend(a: seq<string>, b: seq<string>)
    ensures NonBlank(a + b) == NonBlank(a) + NonBlank(b)
  {
    if a == [] {
      assert a + b == b;
    } else {
      NonBlankAppend(a[1..], b);
      NonBlankHead(a + b);
      NonBlankHead(a);
      assert (a + b)[1..] == a[1..] + b;
      Associative(if a[0] == [] then [] else [a[0]], NonBlank(a[1..]), NonBlank(b));
    }
  }

  lemma NonBlankHead(ss: seq<string>)
    requires ss != []
    ensures NonBlank(ss) == (if ss[0] == [] then [] else [ss[0]]) + NonBlank(ss[1..])
  {
  }

  /** As many tokens as segments exactly when no segment is empty. */
  lemma {:induction false} TokensAreSegments(ss: seq<string>)
    ensures |NonBlank(ss)| <= |ss|
    ensures |NonBlank(ss)| == |ss| <==> [] !in ss
    ensures [] !in ss ==> NonBlank(ss) == ss
  {
    if ss != [] {
      TokensAreSegments(ss[1..]);
      assert ss == [ss[0]] + ss[1..];
    }
  }

  lemma TokensOf(s: string)
    ensures |Tokens(s)| <= |Split(s, ',')|
    ensures |Tokens(s)| == |Split(s, ',')| <==> [] !in Split(s, ',')
    ensures [] !in Split(s, ',') ==> Tokens(s) == Split(s, ',')
  {
    TokensAreSegments(Split(s, ','));
  }

  lemma TokensAfterComma(s: string)
    requires s != [] && s[0] == ','
    ensures Tokens(s) == Tokens(s[1..])
  {
    assert Split(s, ',')[1..] == Split(s[1..], ',');
  }

  lemma FirstToken(w: string, s: string)
    requires w != [] && ',' !in w
    ensures Tokens(w) == [w]
    ensures Tokens(w + [','] + s) == [w] + Tokens(s)
  {
    SplitWithoutSeparator(w, ',');
    SplitAtSeparator(w, ',', s);
    NonBlankAppend([w], Split(s, ','));
    assert NonBlank([w]) == [w] by {
      assert [w][1..] == [];
    }
  }

  lemma {:induction false} CStringAppend(b: seq<char>, p: nat, q: nat)
    requires p <= q <= |b| && NUL !in b[p..q]
    ensures CString(b, p) == b[p..q] + CString(b, q)
    decreases q - p
  {
    if p < q {
      assert b[p] == b[p..q][0];
      assert b[p + 1..q] == b[p..q][1..];
      CStringAppend(b, p + 1, q);
    }
  }

  lemma {:induction false} CStringSame(b: seq<char>, c: seq<char>, i: nat)
    requires |b| == |c| && forall k :: i <= k < |b| ==> b[k] == c[k]
    ensures CString(b, i) == CString(c, i)
    decreases |b| - i
  {
    if i < |b| {
      CStringSame(b, c, i + 1);
    }
  }

  // ----- the loops -----

  /** strchr(s, c), as an index. */
  function IndexOf(s: string, c: char): (r: Option<nat>)
    ensures r.None? ==> c !in s
    ensures r.Some? ==> r.value < |s| && s[r.value] == c && c !in s[..r.value]
  {
    if s == [] then None
    else if s[0] == c then Some(0)
    else
      match IndexOf(s[1..], c)
      case None => None
      case Some(i) =>
        assert s[..i + 1] == [s[0]] + s[1..][..i];
        Some(i + 1)
  }

  method CountEndpoints(endpoints: string) returns (n: nat)
    ensures n == |Split(endpoints, ',')|
  {
    n := 0;
    var endpoint := endpoints;
    while true
      invariant n + |Split(endpoint, ',')| == |Split(endpoints, ',')|
      decreases |endpoint|
    {
      n := n + 1;
      var token := IndexOf(endpoint, ',');
      if token.None? {
        SplitWithoutSeparator(endpoint, ',');
        break;
      }
      var w, rest := endpoint[..token.value], endpoint[token.value + 1..];
      SplitAtSeparator(w, ',', rest);
      SplitWithoutSeparator(w, ',');
      assert endpoint == w + [','] + rest;
      endpoint := rest;
    }
  }

  /** The first half of strtok: the delimiters before the token. */
  method SkipDelimiters(buf: array<char>, start: nat) returns (p: nat)
    requires start < buf.Length && buf[buf.Length - 1] == NUL
    ensures start <= p < buf.Length && buf[p] != ','
    ensures Tokens(CString(buf[..], p)) == Tokens(CString(buf[..], start))
  {
    p := start;
    while buf[p] == ','
      invariant start <= p < buf.Length
      invariant Tokens(CString(buf[..], p)) == Tokens(CString(buf[..], start))
      decreases buf.Length - p
    {
      TokensAfterComma(CString(buf[..], p));
      p := p + 1;
    }
  }

  /** The second half: the end of the token that starts at `p`. */
  method FindDelimiter(buf: array<char>, p: nat) returns (q: nat)
    requires p < buf.Length && buf[buf.Length - 1] == NUL
    ensures p <= q < buf.Length && (buf[q] == ',' || buf[q] == NUL)
    ensures forall k :: p <= k < q ==> buf[k] != ',' && buf[k] != NUL
  {
    q := p;
    while buf[q] != ',' && buf[q] != NUL
      invariant p <= q < buf.Length
      invariant forall k :: p <= k < q ==> buf[k] != ',' && buf[k] != NUL
      decreases buf.Length - q
    {
      q := q + 1;
    }
  }

  /** What overwriting the delimiter at `q` does to the strings at `p` and `q + 1`. */
  lemma CutAtDelimiter(b: seq<char>, c: seq<char>, p: nat, q: nat)
    requires p < q < |b| && (b[q] == ',' || b[q] == NUL) && c == b[q := NUL]
    requires forall k :: p <= k < q ==> b[k] != ',' && b[k] != NUL
    ensures CString(c, p) == b[p..q]
    ensures b[q] == NUL ==> Tokens(CString(b, p)) == [b[p..q]]
    ensures b[q] == ',' ==> Tokens(CString(b, p)) == [b[p..q]] + Tokens(CString(c, q + 1))
  {
    var w := b[p..q];
    assert c[p..q] == w;
    CStringAppend(c, p, q);
    assert w + CString(c, q) == w;
    CStringAppend(b, p, q);
    CStringSame(b, c, q + 1);
    FirstToken(w, CString(c, q + 1));
    if b[q] == NUL {
      assert w + CString(b, q) == w;
    } else {
      assert w + CString(b, q) == w + [','] + CString(c, q + 1);
    }
  }

  lemma NoTokens(b: seq<char>, p: nat)
    requires p < |b| && b[p] == NUL
    ensures Tokens(CString(b, p)) == []
  {
  }

  /** strtok on a NUL-terminated buffer: `start` is the argument, or the place
      saved by the previous call when the argument is null. The delimiter after
      the token is overwritten. */
  method Strtok(buf: array<char>, start: nat) returns (token: Option<nat>, saved: nat)
    requires start < buf.Length && buf[buf.Length - 1] == NUL
    modifies buf
    ensures start <= saved < buf.Length && buf[buf.Length - 1] == NUL
    ensures token.None? <==> Tokens(old(CString(buf[..], start))) == []
    ensures token.Some? ==>
              && start <= token.value < buf.Length
              && [CString(buf[..], token.value)] + Tokens(CString(buf[..], saved))
                 == Tokens(old(CString(buf[..], start)))
  {
    hide Tokens, CString;
    var p := SkipDelimiters(buf, start);
    if buf[p] == NUL {
      NoTokens(buf[..], p);
      return None, p;
    }
    var q := FindDelimiter(buf, p);
    CutAtDelimiter(buf[..], buf[..][q := NUL], p, q);
    if buf[q] == NUL {
      assert buf[..][q := NUL] == buf[..];
      NoTokens(buf[..], q);
      return Some(p), q;
    }
    buf[q] := NUL;
    return Some(p), q + 1;
  }

  lemma CStringOfCopy(b: seq<char>, s: string)
    requires b == s + [NUL] && NUL !in s
    ensures CString(b, 0) == s
  {
    assert b[0..|s|] == s;
    CStringAppend(b, 0, |s|);
    assert s + CString(b, |s|) == s;
  }

  method Strdup(s: string) returns (buf: array<char>)
    ensures fresh(buf) && buf[..] == s + [NUL]
  {
    buf := new char[|s| + 1](i => if 0 <= i < |s| then s[i] else NUL);
  }

  /** `_client_publish_init`, with allocations and sockets succeeding: the
      endpoint of every socket, or `None` for the null result. It succeeds
      exactly when no segment is empty; then socket i holds segment i without
      its leading spaces. */
  method ClientPublishInit(endpoints: string) returns (sockets: Option<seq<string>>)
    requires NUL !in endpoints
    ensures sockets.Some? <==> [] !in Split(endpoints, ',')
    ensures sockets.Some? ==> sockets.value == Stripped(Split(endpoints, ','))
  {
    hide Tokens, CString, StripSpaces, Split, Stripped;
    if |endpoints| == 0 {
      SplitNothing(',');
      return None;
    }
    var count := CountEndpoints(endpoints);
    var buf := Strdup(endpoints);
    CStringOfCopy(buf[..], endpoints);
    ghost var all := Tokens(endpoints);
    TokensOf(endpoints);
    var bound: seq<string> := [];
    var token := 0;
    for i := 0 to count
      invariant fresh(buf) && token < buf.Length && buf[buf.Length - 1] == NUL
      invariant i <= |all| && Tokens(CString(buf[..], token)) == all[i..]
      invariant bound == Stripped(all[..i])
    {
      var end, saved := Strtok(buf, token);
      if end.None? { return None; }
      assert CString(buf[..], end.value) == all[i];
      bound := bound + [StripSpaces(CString(buf[..], end.value))];
      token := saved;
    }
    assert all[..count] == all;
    sockets := Some(bound);
  }

  /** The connect loop of the subscribe modes: empty segments are skipped. */
  method SubscribeConnect(endpoints: string) returns (connected: seq<string>)
    requires NUL !in endpoints
    ensures connected == Stripped(Tokens(endpoints))
  {
    hide Tokens, CString, StripSpaces, Stripped;
    var buf := Strdup(endpoints);
    CStringOfCopy(buf[..], endpoints);
    ghost var all, i := Tokens(endpoints), 0;
    connected := [];
    var token := 0;
    while true
      invariant fresh(buf) && token < buf.Length && buf[buf.Length - 1] == NUL
      invariant i <= |all| && Tokens(CString(buf[..], token)) == all[i..]
      invariant connected == Stripped(all[..i])
      decreases |all| - i
    {
      var end, saved := Strtok(buf, token);
      if end.None? { break; }
      assert CString(buf[..], end.value) == all[i];
      connected := connected + [StripSpaces(CString(buf[..], end.value))];
      token := saved;
      i := i + 1;
    }
    assert all[..i] == all;
  }
}
