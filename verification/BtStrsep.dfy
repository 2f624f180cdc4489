/** The escaping tokenizer of the calibration-file parser, working in place on a C string (bt_init.c). */
module BtStrsep {
  import opened Wrappers

  const NUL := '\0'

  // ---- One token, on values ----

  /** The token up to the first unescaped delimiter, unescaped, and what follows that delimiter if there is one. */
  function Scan(t: string, delim: char, esc: char): (r: (string, Option<string>))
    ensures |r.0| <= |t| && (r.1.Some? ==> |r.1.value| < |t|)
  {
    if t == "" then ("", None)
    else if |t| > 1 && t[0] == esc && (t[1] == esc || t[1] == delim) then Onto(t[1], Scan(t[2..], delim, esc))
    else if t[0] == delim then ("", Some(t[1..]))
    else Onto(t[0], Scan(t[1..], delim, esc))
  }

  function Onto(c: char, r: (string, Option<string>)): (string, Option<string>) {
    ([c] + r.0, r.1)
  }

  /** All tokens: the tokenizer called until it returns nothing, which it does at the end and on an empty rest. */
  function Tokens(t: Option<string>, delim: char, esc: char): seq<string>
    decreases if t.Some? then |t.value| + 1 else 0
  {
    if t.None? || t.value == "" then []
    else [Scan(t.value, delim, esc).0] + Tokens(Scan(t.value, delim, esc).1, delim, esc)
  }

  // ---- Escaping and joining ----

  function Escape(t: string, delim: char, esc: char): string {
    if t == "" then ""
    else (if t[0] == esc || t[0] == delim then [esc, t[0]] else [t[0]]) + Escape(t[1..], delim, esc)
  }

  function Join(ts: seq<string>, delim: char, esc: char): string {
    if ts == [] then ""
    else if |ts| == 1 then Escape(ts[0], delim, esc)
    else Escape(ts[0], delim, esc) + [delim] + Join(ts[1..], delim, esc)
  }

  /** The tokens without an empty last one, which a joined string cannot show. */
  function Shown(ts: seq<string>): seq<string> {
    if ts != [] && ts[|ts| - 1] == "" then ts[..|ts| - 1] else ts
  }

  lemma ScanSpecial(c: char, r: string, delim: char, esc: char)
    requires c == esc || c == delim
    ensures Scan([esc, c] + r, delim, esc) == Onto(c, Scan(r, delim, esc))
  {
    assert ([esc, c] + r)[2..] == r;
  }

  lemma ScanPlain(c: char, r: string, delim: char, esc: char)
    requires c != esc && c != delim
    ensures Scan([c] + r, delim, esc) == Onto(c, Scan(r, delim, esc))
  {
    assert ([c] + r)[1..] == r;
  }

  /** The scan ends at once at a delimiter: one that is not the first half of an escape. */
  predicate StopsHere(r: string, delim: char, esc: char) {
    r != "" && r[0] == delim && !(|r| > 1 && r[0] == esc && (r[1] == esc || r[1] == delim))
  }

  lemma ScanStop(r: string, delim: char, esc: char)
    requires r == "" || StopsHere(r, delim, esc)
    ensures Scan(r, delim, esc) == ("", if r == "" then None else Some(r[1..]))
  {
  }

  /** Scanning an escaped token goes through to what follows it. */
  lemma {:induction false} ScanEscaped(t: string, rest: string, delim: char, esc: char)
    requires rest == "" || StopsHere(rest, delim, esc)
    ensures Scan(Escape(t, delim, esc) + rest, delim, esc)
         == (t, if rest == "" then None else Some(rest[1..]))
  {
    hide Scan, Escape, StopsHere;
    if t == "" {
      EscapeEmpty(t, delim, esc);
      assert Escape(t, delim, esc) + rest == rest;
      ScanStop(rest, delim, esc);
    } else {
      var tail := Escape(t[1..], delim, esc) + rest;
      ScanEscaped(t[1..], rest, delim, esc);
      EscapeCons(t, rest, delim, esc);
      assert [t[0]] + t[1..] == t;
      if t[0] == esc || t[0] == delim {
        ScanSpecial(t[0], tail, delim, esc);
      } else {
        ScanPlain(t[0], tail, delim, esc);
      }
    }
  }

  lemma EscapeCons(t: string, rest: string, delim: char, esc: char)
    requires t != ""
    ensures Escape(t, delim, esc) + rest
         == (if t[0] == esc || t[0] == delim then [esc, t[0]] else [t[0]]) + (Escape(t[1..], delim, esc) + rest)
  {
  }

  /** Text with nothing to unescape: no delimiter in it, and no escape character before one of the two. */
  ghost predicate Literal(t: string, delim: char, esc: char) {
    && (forall i :: 0 <= i < |t| ==> t[i] != delim)
    && (forall i :: 0 <= i < |t| - 1 && t[i] == esc ==> t[i + 1] != esc)
  }

  /** Such text is passed as it is, lone escape characters included, up to the end or the delimiter behind it. */
  lemma {:induction false} ScanLiteral(t: string, rest: string, delim: char, esc: char)
    requires Literal(t, delim, esc)
    requires rest == "" || (StopsHere(rest, delim, esc) && (t != "" ==> t[|t| - 1] != esc))
    ensures Scan(t + rest, delim, esc) == (t, if rest == "" then None else Some(rest[1..]))
  {
    hide Scan;
    if t == "" {
      assert t + rest == rest;
      ScanStop(rest, delim, esc);
    } else {
      var all := t + rest;
      assert all[1..] == t[1..] + rest && all[0] == t[0];
      ScanLiteral(t[1..], rest, delim, esc);
      assert |t| > 1 ==> all[1] == t[1];
      ScanTurn(all, delim, esc);
      assert t == [t[0]] + t[1..];
    }
  }

  lemma EscapeEmpty(t: string, delim: char, esc: char)
    ensures Escape(t, delim, esc) == "" <==> t == ""
  {
  }

  lemma JoinCons(ts: seq<string>, delim: char, esc: char)
    requires |ts| > 1
    ensures Join(ts, delim, esc) == Escape(ts[0], delim, esc) + ([delim] + Join(ts[1..], delim, esc))
    ensures Shown(ts) == [ts[0]] + Shown(ts[1..])
  {
    assert ts == [ts[0]] + ts[1..];
    assert ts[..|ts| - 1] == [ts[0]] + ts[1..][..|ts| - 2];
  }

  lemma TokensCons(t: string, delim: char, esc: char)
    requires t != ""
    ensures Tokens(Some(t), delim, esc) == [Scan(t, delim, esc).0] + Tokens(Scan(t, delim, esc).1, delim, esc)
  {
  }

  lemma NoTokens(delim: char, esc: char)
    ensures Tokens(None, delim, esc) == [] && Tokens(Some(""), delim, esc) == []
  {
  }

  lemma OneToken(t: string, delim: char, esc: char)
    ensures Tokens(Some(Join([t], delim, esc)), delim, esc) == if t == "" then [] else [t]
  {
    hide Scan, Tokens, Escape;
    NoTokens(delim, esc);
    EscapeEmpty(t, delim, esc);
    if t != "" {
      ScanEscaped(t, "", delim, esc);
      assert Escape(t, delim, esc) + "" == Escape(t, delim, esc);
      TokensCons(Escape(t, delim, esc), delim, esc);
    }
  }

  /** Splitting a joined string gives back the tokens, but for an empty last one. */
  lemma {:induction false} SplitJoined(ts: seq<string>, delim: char, esc: char)
    requires esc != delim
    ensures Tokens(Some(Join(ts, delim, esc)), delim, esc) == Shown(ts)
  {
    hide Scan, Tokens, Escape;
    NoTokens(delim, esc);
    if |ts| == 1 {
      assert ts == [ts[0]];
      OneToken(ts[0], delim, esc);
    } else if ts != [] {
      var rest := [delim] + Join(ts[1..], delim, esc);
      hide Join;
      JoinCons(ts, delim, esc);
      assert rest[1..] == Join(ts[1..], delim, esc);
      ScanEscaped(ts[0], rest, delim, esc);
      TokensCons(Join(ts, delim, esc), delim, esc);
      SplitJoined(ts[1..], delim, esc);
    }
  }

  /**
   * What a joined string shows: no empty last token; and with one character as delimiter and escape, where two of
   * them stand for the character itself, no later token that is empty or begins with it.
   */
  predicate Recoverable(ts: seq<string>, delim: char, esc: char) {
    ts != [] ==>
      && ts[|ts| - 1] != ""
      && (esc == delim ==> forall i :: 0 < i < |ts| ==> ts[i] != "" && ts[i][0] != delim)
  }

  lemma RecoverableCons(ts: seq<string>, delim: char, esc: char)
    requires |ts| > 1
    ensures Recoverable(ts, delim, esc)
       <==> Recoverable(ts[1..], delim, esc) && (esc == delim ==> ts[1] != "" && ts[1][0] != delim)
  {
    var t := ts[1..];
    assert forall i :: 0 < i < |t| ==> t[i] == ts[i + 1];
    assert forall i :: 1 < i < |ts| ==> ts[i] == t[i - 1];
  }

  /** What the rest of a joined string begins with. */
  lemma JoinBegins(ts: seq<string>, delim: char, esc: char)
    requires ts != []
    ensures var j := Join(ts, delim, esc);
            && (j == "" <==> ts == [""])
            && (ts[0] != "" ==> j[0] == if ts[0][0] == delim then esc else ts[0][0])
            && (ts[0] == "" && |ts| > 1 ==> j[0] == delim)
  {
  }

  /** Two delimiters that make an escape carry the scan past the end of the token. */
  lemma {:induction false} ScanOverruns(t: string, rest: string, d: char)
    requires |rest| > 1 && rest[0] == d && rest[1] == d
    ensures |Scan(Escape(t, d, d) + rest, d, d).0| > |t|
  {
    hide Scan, Escape;
    if t == "" {
      EscapeEmpty(t, d, d);
      assert Escape(t, d, d) + rest == rest == [d, d] + rest[2..];
      ScanSpecial(d, rest[2..], d, d);
    } else {
      ScanOverruns(t[1..], rest, d);
      EscapeCons(t, rest, d, d);
      if t[0] == d {
        ScanSpecial(d, Escape(t[1..], d, d) + rest, d, d);
      } else {
        ScanPlain(t[0], Escape(t[1..], d, d) + rest, d, d);
      }
    }
  }

  lemma ConsSame<T>(x: T, y: T, a: seq<T>, b: seq<T>)
    ensures [x] + a == [y] + b <==> x == y && a == b
  {
    assert ([x] + a)[1..] == a && ([y] + b)[1..] == b;
    assert ([x] + a)[0] == x && ([y] + b)[0] == y;
  }

  /** For every delimiter and escape, equal or not, the round trip is exact precisely for recoverable tokens. */
  lemma {:induction false} RoundTripExactly(ts: seq<string>, delim: char, esc: char)
    ensures Tokens(Some(Join(ts, delim, esc)), delim, esc) == ts <==> Recoverable(ts, delim, esc)
  {
    hide Scan, Tokens, Join, Escape, Recoverable;
    if |ts| <= 1 {
      FewRecoverable(ts, delim, esc);
    } else {
      var tail := Join(ts[1..], delim, esc);
      JoinCons(ts, delim, esc);
      RecoverableCons(ts, delim, esc);
      JoinBegins(ts[1..], delim, esc);
      var rest := [delim] + tail;
      assert rest[1..] == tail && ts == [ts[0]] + ts[1..];
      TokensCons(Join(ts, delim, esc), delim, esc);
      var (t, after) := Scan(Join(ts, delim, esc), delim, esc);
      ConsSame(t, ts[0], Tokens(after, delim, esc), ts[1..]);
      if esc == delim && tail != "" && tail[0] == delim {
        ScanOverruns(ts[0], rest, delim);
      } else {
        ScanEscaped(ts[0], rest, delim, esc);
        RoundTripExactly(ts[1..], delim, esc);
        if ts[1..] == [""] {
          LastNotEmpty(ts[1..], delim, esc);
        }
      }
    }
  }

  lemma LastNotEmpty(ts: seq<string>, delim: char, esc: char)
    requires ts == [""]
    ensures !Recoverable(ts, delim, esc)
  {
  }

  lemma FewRecoverable(ts: seq<string>, delim: char, esc: char)
    requires |ts| <= 1
    ensures Tokens(Some(Join(ts, delim, esc)), delim, esc) == ts <==> Recoverable(ts, delim, esc)
  {
    hide Scan, Tokens;
    NoTokens(delim, esc);
    if ts != [] {
      assert ts == [ts[0]];
      OneToken(ts[0], delim, esc);
    }
  }

  // ---- In place ----

  /** From position `i` the buffer holds the string `t` and its terminator. */
  ghost predicate Holds(b: seq<char>, i: nat, t: string) {
    && i + |t| < |b| && b[i + |t|] == NUL
    && (forall j :: i <= j < i + |t| ==> b[j] == t[j - i] && b[j] != NUL)
  }

  /** The buffer outside positions `i` to `n` is as it was. */
  ghost predicate OnlyWithin(b: seq<char>, was: seq<char>, i: nat, n: nat) {
    |b| == |was| && forall j :: 0 <= j < |b| && (j < i || j > n) ==> b[j] == was[j]
  }

  lemma HoldsRest(b: seq<char>, i: nat, t: string)
    requires Holds(b, i, t) && t != ""
    ensures b[i] == t[0] && b[i] != NUL && Holds(b, i + 1, t[1..])
    ensures i + 1 < |b| && b[i + 1] == if |t| > 1 then t[1] else NUL
  {
  }

  /** memmove(sb, sb + 1, strlen(sb)): drops the character at `sb`. */
  method ChopOff(b: array<char>, sb: nat, ghost t: string)
    requires Holds(b[..], sb, t) && t != ""
    modifies b
    ensures Holds(b[..], sb, t[1..]) && OnlyWithin(b[..], old(b[..]), sb, sb + |t|)
  {
    var n := StrLen(b, sb, t);
    ghost var was := b[..];
    forall j | sb <= j < sb + n {
      b[j] := b[j + 1];
    }
    Shifted(was, b[..], sb, t);
  }

  lemma Shifted(was: seq<char>, b: seq<char>, sb: nat, t: string)
    requires Holds(was, sb, t) && t != "" && |b| == |was|
    requires forall j :: sb <= j < sb + |t| ==> b[j] == was[j + 1]
    ensures Holds(b, sb, t[1..])
  {
  }

  method StrLen(b: array<char>, i: nat, ghost t: string) returns (n: nat)
    requires Holds(b[..], i, t)
    ensures n == |t|
  {
    n := 0;
    while b[i + n] != NUL
      invariant 0 <= n <= |t|
      decreases |t| - n
    {
      n := n + 1;
    }
  }

  // ---- The tokenizer ----

  /** How far the scan has come: `done` is the token so far, `left` what is still to be read. */
  ghost predicate Scanning(b: seq<char>, s: nat, sb: nat, done: string, left: string, text: string,
                           delim: char, esc: char)
  {
    && sb == s + |done| && sb + |left| <= s + |text|
    && (forall j :: s <= j < sb && j < |b| ==> b[j] == done[j - s] && b[j] != NUL)
    && Holds(b, sb, left)
    && Scan(text, delim, esc) == (done + Scan(left, delim, esc).0, Scan(left, delim, esc).1)
  }

  /** One turn of the loop that does not end it: an escape is dropped if there is one, and a character is passed. */
  method Pass(b: array<char>, s: nat, sb: nat, delim: char, esc: char,
              ghost done: string, ghost left: string, ghost text: string)
    returns (ghost done': string, ghost left': string)
    requires delim != NUL && esc != NUL
    requires Scanning(b[..], s, sb, done, left, text, delim, esc) && left != ""
    requires (|left| > 1 && left[0] == esc && (left[1] == esc || left[1] == delim)) || left[0] != delim
    modifies b
    ensures Scanning(b[..], s, sb + 1, done', left', text, delim, esc) && |left'| < |left|
    ensures OnlyWithin(b[..], old(b[..]), sb, s + |text|) && Holds(b[..], sb + 1, left')
  {
    hide Scan;
    HoldsRest(b[..], sb, left);
    ScanTurn(left, delim, esc);
    if b[sb] == esc && (b[sb + 1] == esc || b[sb + 1] == delim) {
      ChopOff(b, sb, left);
      done', left' := done + [left[1]], left[2..];
      HoldsRest(b[..], sb, left[1..]);
      assert left[1..][1..] == left[2..];
    } else {
      done', left' := done + [left[0]], left[1..];
    }
    OntoConcat(done, done'[|done|], Scan(left', delim, esc));
  }

  lemma ScanTurn(left: string, delim: char, esc: char)
    requires left != ""
    ensures |left| > 1 && left[0] == esc && (left[1] == esc || left[1] == delim) ==>
              Scan(left, delim, esc) == Onto(left[1], Scan(left[2..], delim, esc))
    ensures !(|left| > 1 && left[0] == esc && (left[1] == esc || left[1] == delim)) && left[0] != delim ==>
              Scan(left, delim, esc) == Onto(left[0], Scan(left[1..], delim, esc))
  {
  }

  lemma OntoConcat(done: string, c: char, r: (string, Option<string>))
    ensures done + Onto(c, r).0 == done + [c] + r.0 && Onto(c, r).1 == r.1
  {
  }

  /**
   * bt_strsep: separates the first token of the string at `s` in place. The rest begins after the delimiter, and
   * every byte outside the string keeps its value.
   */
  method Strsep(b: array<char>, s: Option<nat>, delim: char, esc: char, ghost text: string)
    returns (token: Option<nat>, rest: Option<nat>)
    requires delim != NUL && esc != NUL
    requires s.Some? ==> Holds(b[..], s.value, text)
    modifies b
    ensures s.None? || text == "" ==> token == None && rest == s && b[..] == old(b[..])
    ensures s.Some? && text != "" ==>
              var (t, after) := Scan(text, delim, esc);
              && token == s && Holds(b[..], s.value, t) && rest.Some? == after.Some?
              && (rest.Some? ==>
                    && s.value + |t| < rest.value && rest.value + |after.value| <= s.value + |text|
                    && Holds(b[..], rest.value, after.value))
              && OnlyWithin(b[..], old(b[..]), s.value, s.value + |text|)
  {
    hide Scan;
    if s.None? || b[s.value] == NUL {
      return None, s;
    }
    token := s;
    rest := Separate(b, s.value, delim, esc, text);
  }

  method Separate(b: array<char>, s: nat, delim: char, esc: char, ghost text: string) returns (rest: Option<nat>)
    requires delim != NUL && esc != NUL && Holds(b[..], s, text)
    modifies b
    ensures var (t, after) := Scan(text, delim, esc);
            && Holds(b[..], s, t) && rest.Some? == after.Some?
            && (rest.Some? ==>
                  && s + |t| < rest.value && rest.value + |after.value| <= s + |text|
                  && Holds(b[..], rest.value, after.value))
            && OnlyWithin(b[..], old(b[..]), s, s + |text|)
  {
    hide Scan, Holds, OnlyWithin, Scanning;
    var sb := s;
    ghost var done, left := "", text;
    ScanStarts(b[..], s, text, delim, esc);
    var stop := AtDelimiter(b, sb, delim, esc, left);
    while !stop
      invariant s <= sb && Scanning(b[..], s, sb, done, left, text, delim, esc)
      invariant OnlyWithin(b[..], old(b[..]), s, s + |text|)
      invariant stop <==> left == "" || StopsHere(left, delim, esc)
      decreases |left|, !stop
    {
      ghost var was := b[..];
      done, left := Pass(b, s, sb, delim, esc, done, left, text);
      WithinWithin(b[..], was, old(b[..]), s, sb, s + |text|);
      sb := sb + 1;
      stop := AtDelimiter(b, sb, delim, esc, left);
    }
    ghost var was := b[..];
    ScanEnds(was, s, sb, done, left, text, delim, esc);
    if b[sb] == NUL {
      return None;
    }
    b[sb] := NUL;
    rest := Some(sb + 1);
    assert b[..] == was[sb := NUL];
    CutOff(was, old(b[..]), s, sb, done, left, text, delim, esc);
  }

  /** The loop's two ways out: the terminator, or a delimiter that is not part of an escape. */
  method AtDelimiter(b: array<char>, sb: nat, delim: char, esc: char, ghost left: string) returns (stop: bool)
    requires delim != NUL && esc != NUL && Holds(b[..], sb, left)
    ensures stop <==> left == "" || StopsHere(left, delim, esc)
  {
    if b[sb] == NUL {
      return true;
    }
    HoldsRest(b[..], sb, left);
    stop := b[sb] == delim && !(b[sb] == esc && (b[sb + 1] == esc || b[sb + 1] == delim));
  }

  lemma ScanStarts(b: seq<char>, s: nat, text: string, delim: char, esc: char)
    requires Holds(b, s, text)
    ensures Scanning(b, s, s, "", text, text, delim, esc) && OnlyWithin(b, b, s, s + |text|)
  {
    hide Scan;
    assert "" + Scan(text, delim, esc).0 == Scan(text, delim, esc).0;
  }

  lemma WithinWithin(b: seq<char>, mid: seq<char>, was: seq<char>, s: nat, sb: nat, n: nat)
    requires s <= sb && OnlyWithin(b, mid, sb, n) && OnlyWithin(mid, was, s, n)
    ensures OnlyWithin(b, was, s, n)
  {
  }

  lemma ScanEnds(b: seq<char>, s: nat, sb: nat, done: string, left: string, text: string, delim: char, esc: char)
    requires Scanning(b, s, sb, done, left, text, delim, esc) && delim != NUL
    requires left == "" || StopsHere(left, delim, esc)
    ensures sb < |b| && (b[sb] == NUL <==> left == "")
    ensures Scan(text, delim, esc) == (done, if left == "" then None else Some(left[1..]))
    ensures left == "" ==> Holds(b, s, done)
  {
    assert done + "" == done;
    if left == "" {
      assert Scan(left, delim, esc) == ("", None);
    } else {
      HoldsRest(b, sb, left);
      assert Scan(left, delim, esc) == ("", Some(left[1..]));
    }
  }

  /** Writing the terminator over the delimiter ends the token and leaves the rest. */
  lemma CutOff(b: seq<char>, was: seq<char>, s: nat, sb: nat, done: string, left: string, text: string,
               delim: char, esc: char)
    requires Scanning(b, s, sb, done, left, text, delim, esc) && OnlyWithin(b, was, s, s + |text|) && left != ""
    ensures sb < |b|
    ensures var c := b[sb := NUL];
            && Holds(c, s, done) && Holds(c, sb + 1, left[1..]) && OnlyWithin(c, was, s, s + |text|)
            && s + |done| < sb + 1 && sb + 1 + |left[1..]| <= s + |text|
  {
    hide Scan;
  }

  // ---- Until nothing is left ----

  /** The first tokens of `all` lie in the buffer below the cursor, and the string `left` at it. */
  ghost predicate Separating(b: seq<char>, start: nat, end: nat, tokens: seq<nat>, all: seq<string>,
                             s: Option<nat>, left: Option<string>)
  {
    && |tokens| <= |all| && s.Some? == left.Some?
    && (s.Some? ==> Holds(b, s.value, left.value) && start <= s.value && s.value + |left.value| <= end)
    && (forall k :: 0 <= k < |tokens| ==>
          && Holds(b, tokens[k], all[k]) && start <= tokens[k] && tokens[k] + |all[k]| <= end
          && (s.Some? ==> tokens[k] + |all[k]| < s.value))
  }

  /** The tokens of a string that is separated completely lie in the buffer, each with its terminator. */
  method SeparateAll(b: array<char>, start: nat, delim: char, esc: char, ghost text: string)
    returns (tokens: seq<nat>)
    requires delim != NUL && esc != NUL && Holds(b[..], start, text)
    modifies b
    ensures |tokens| == |Tokens(Some(text), delim, esc)|
    ensures forall k :: 0 <= k < |tokens| ==> Holds(b[..], tokens[k], Tokens(Some(text), delim, esc)[k])
    ensures OnlyWithin(b[..], old(b[..]), start, start + |text|)
  {
    hide Scan, Holds;
    tokens := [];
    var s := Some(start);
    ghost var left := Some(text);
    ghost var all := Tokens(left, delim, esc);
    assert all[0..] == all;
    var more := true;
    while more
      invariant Separating(b[..], start, start + |text|, tokens, all, s, left)
      invariant all[|tokens|..] == if more then Tokens(left, delim, esc) else []
      invariant OnlyWithin(b[..], old(b[..]), start, start + |text|)
      decreases more, if left.Some? then |left.value| + 1 else 0
    {
      tokens, s, left, more := Another(b, start, delim, esc, tokens, s, text, all, left);
    }
  }

  /** One call of the tokenizer. */
  method Another(b: array<char>, start: nat, delim: char, esc: char, tokens: seq<nat>, s: Option<nat>,
                 ghost text: string, ghost all: seq<string>, ghost left: Option<string>)
    returns (tokens': seq<nat>, s': Option<nat>, ghost left': Option<string>, more: bool)
    requires delim != NUL && esc != NUL && Separating(b[..], start, start + |text|, tokens, all, s, left)
    requires all[|tokens|..] == Tokens(left, delim, esc)
    modifies b
    ensures Separating(b[..], start, start + |text|, tokens', all, s', left')
    ensures all[|tokens'|..] == if more then Tokens(left', delim, esc) else []
    ensures OnlyWithin(b[..], old(b[..]), start, start + |text|)
    ensures more ==> left.Some? && (left'.Some? ==> |left'.value| < |left.value|)
  {
    hide Scan;
    ghost var was := b[..];
    var token: Option<nat>;
    token, s' := Strsep(b, s, delim, esc, if left.Some? then left.value else "");
    if token.None? {
      tokens', left', more := tokens, left, false;
      assert Tokens(left, delim, esc) == [];
    } else {
      ghost var (t, after) := Scan(left.value, delim, esc);
      tokens', left', more := tokens + [token.value], after, true;
      assert all[|tokens|..][0] == t && all[|tokens|..][1..] == all[|tokens'|..];
      forall k | 0 <= k < |tokens|
        ensures Holds(b[..], tokens[k], all[k])
      {
        HoldsBelow(was, b[..], tokens[k], all[k], s.value, s.value + |left.value|);
      }
    }
  }

  lemma HoldsBelow(was: seq<char>, b: seq<char>, i: nat, t: string, s: nat, n: nat)
    requires Holds(was, i, t) && i + |t| < s && OnlyWithin(b, was, s, n)
    ensures Holds(b, i, t)
  {
  }
}
