/** The tweet-text normaliser of polarity.py, used by parse_tweets and on_data:
    first `re.sub("([^0-9A-Za-z \t])|(\w+:\/\/\S+)", "", s)`, then
    `" ".join(... .split())`.

    The substitution is modelled as the left-to-right scan the regular
    expression engine performs: at each position the first alternative is
    tried first and deletes one character outside [0-9A-Za-z \t]; otherwise the
    second alternative deletes a URL-shaped token `\w+://\S+` starting here;
    otherwise the character is kept and the scan moves on. */
module Text {
  import opened Seqs

  // ---------------------------------------------------------------------
  // Character classes
  // ---------------------------------------------------------------------

  predicate IsAlnum(c: char) {
    'a' <= c <= 'z' || 'A' <= c <= 'Z' || '0' <= c <= '9'
  }

  /** The characters the class [0-9A-Za-z \t] admits: the first alternative
      deletes every other character. */
  predicate IsKept(c: char) {
    IsAlnum(c) || c == ' ' || c == '\t'
  }

  /** Characters the first alternative keeps, throughout. */
  predicate AllKept(t: string) {
    forall i :: 0 <= i < |t| ==> IsKept(t[i])
  }

  /** `\w`, restricted to ASCII: letters, digits and the underscore. */
  predicate IsWordChar(c: char) {
    IsAlnum(c) || c == '_'
  }

  /** Python's notion of whitespace, shared by `\s` in a str pattern and by
      `str.split()` without arguments. */
  predicate IsSpace(c: char) {
    ('\t' <= c <= '\r') || ('\U{1C}' <= c <= ' ') || c == '\U{85}' || c == '\U{A0}'
    || c == '\U{1680}' || ('\U{2000}' <= c <= '\U{200A}') || c == '\U{2028}'
    || c == '\U{2029}' || c == '\U{202F}' || c == '\U{205F}' || c == '\U{3000}'
  }

  // ---------------------------------------------------------------------
  // The substitution
  // ---------------------------------------------------------------------

  /** Length of the longest prefix of `s` made of word characters: what the
      greedy `\w+` consumes. */
  function WordRun(s: string): (n: nat)
    ensures n <= |s|
    ensures forall i :: 0 <= i < n ==> IsWordChar(s[i])
    ensures n < |s| ==> !IsWordChar(s[n])
  {
    if s != [] && IsWordChar(s[0]) then 1 + WordRun(s[1..]) else 0
  }

  /** Length of the longest prefix of `s` holding no whitespace: what the
      greedy `\S+` consumes, and the extent of one piece of `str.split()`. */
  function NonSpaceRun(s: string): (n: nat)
    ensures n <= |s|
    ensures forall i :: 0 <= i < n ==> !IsSpace(s[i])
    ensures n < |s| ==> IsSpace(s[n])
  {
    if s != [] && !IsSpace(s[0]) then 1 + NonSpaceRun(s[1..]) else 0
  }

  /** The text "://" at position `k` of `t`. */
  predicate SeparatorAt(t: string, k: nat) {
    k + 3 <= |t| && t[k] == ':' && t[k + 1] == '/' && t[k + 2] == '/'
  }

  /** A string the second alternative `\w+://\S+` matches as a whole. The
      `\w+` part is necessarily the maximal word run, since ':' is not a
      word character. */
  predicate UrlShaped(t: string) {
    var w := WordRun(t);
    0 < w && w + 3 < |t| && SeparatorAt(t, w) && NoSpaceFrom(t, w + 3)
  }

  /** No whitespace from position `k` to the end of `t`. */
  predicate NoSpaceFrom(t: string, k: nat) {
    forall i :: k <= i < |t| ==> !IsSpace(t[i])
  }

  /** Length of the match of `\w+://\S+` at the start of `s`, 0 when the
      second alternative does not match here. */
  function UrlMatch(s: string): (n: nat)
    ensures n <= |s|
    ensures n > 0 ==> UrlShaped(s[..n]) && (n == |s| || IsSpace(s[n]))
  {
    var w := WordRun(s);
    if 0 < w && w + 3 < |s| && SeparatorAt(s, w) && !IsSpace(s[w + 3]) then
      var m := NonSpaceRun(s[w + 3..]);
      UrlMatchShape(s, w, m);
      w + 3 + m
    else
      0
  }

  lemma UrlMatchShape(s: string, w: nat, m: nat)
    requires w == WordRun(s) && 0 < w && w + 3 < |s| && SeparatorAt(s, w)
    requires !IsSpace(s[w + 3]) && m == NonSpaceRun(s[w + 3..])
    ensures w + 3 + m <= |s| && UrlShaped(s[..w + 3 + m])
    ensures w + 3 + m == |s| || IsSpace(s[w + 3 + m])
  {
    assert s[w + 3..][0] == s[w + 3];
    NonSpaceRunShift(s, w + 3);
    UrlShapedPrefix(s, w, w + 3 + m);
  }

  /** The run of non-whitespace that starts at `k`, read in `s` itself. */
  lemma NonSpaceRunShift(s: string, k: nat)
    requires k <= |s|
    ensures k + NonSpaceRun(s[k..]) <= |s|
    ensures forall i :: k <= i < k + NonSpaceRun(s[k..]) ==> !IsSpace(s[i])
    ensures k + NonSpaceRun(s[k..]) < |s| ==> IsSpace(s[k + NonSpaceRun(s[k..])])
  {
    var v := s[k..];
    var m := NonSpaceRun(v);
    forall i | k <= i < k + m
      ensures !IsSpace(s[i])
    {
      assert s[i] == v[i - k];
    }
    if k + m < |s| {
      assert s[k + m] == v[m];
    }
  }

  /** A prefix of `s` that runs past "://" after the word run, with no
      whitespace after it, is URL-shaped. */
  lemma UrlShapedPrefix(s: string, w: nat, n: nat)
    requires w == WordRun(s) && 0 < w && w + 3 < n <= |s| && SeparatorAt(s, w)
    requires forall i :: w + 3 <= i < n ==> !IsSpace(s[i])
    ensures UrlShaped(s[..n])
  {
    WordRunPrefix(s, n);
  }

  /** The word run of a prefix is the word run of the whole, cut at the
      prefix's end. */
  lemma {:induction false} WordRunPrefix(s: string, k: nat)
    requires k <= |s|
    ensures WordRun(s[..k]) == if WordRun(s) < k then WordRun(s) else k
    decreases k
  {
    if k > 0 && IsWordChar(s[0]) {
      assert s[..k][1..] == s[1..][..k - 1];
      WordRunPrefix(s[1..], k - 1);
    }
  }

  /** The second alternative matches greedily: `UrlMatch(s)` is the longest
      URL-shaped prefix of `s`, and 0 exactly when no prefix is URL-shaped. */
  lemma UrlMatchLongest(s: string, k: nat)
    requires 0 < k <= |s|
    ensures UrlShaped(s[..k]) ==> k <= UrlMatch(s)
  {
    if UrlShaped(s[..k]) {
      var t := s[..k];
      var w := WordRun(t);
      WordRunPrefix(s, k);
      assert WordRun(s) == w by {
        assert t[w] == ':';
      }
      assert s[w] == t[w] && s[w + 1] == t[w + 1] && s[w + 2] == t[w + 2];
      assert s[w + 3] == t[w + 3];
    }
  }

  /** The substitution `re.sub("([^0-9A-Za-z \t])|(\w+:\/\/\S+)", "", s)`. */
  function Strip(s: string): (r: string)
    ensures AllKept(r)
    ensures |r| <= |s|
    decreases |s|
  {
    if s == [] then []
    else if !IsKept(s[0]) then Strip(s[1..])
    else
      var n := UrlMatch(s);
      if n > 0 then Strip(s[n..]) else [s[0]] + Strip(s[1..])
  }

  // ---------------------------------------------------------------------
  // split() and " ".join(...)
  // ---------------------------------------------------------------------

  /** One piece of `str.split()`: non-empty and free of whitespace. */
  predicate IsWord(w: string) {
    |w| > 0 && forall i :: 0 <= i < |w| ==> !IsSpace(w[i])
  }

  /** `str.split()` without arguments: the maximal runs of non-whitespace,
      in order; runs of whitespace, leading and trailing ones included,
      separate pieces and produce none. */
  function Words(s: string): (ws: seq<string>)
    ensures forall i :: 0 <= i < |ws| ==> IsWord(ws[i])
    ensures AllKept(s) ==> forall i :: 0 <= i < |ws| ==> AllKept(ws[i])
    decreases |s|
  {
    if s == [] then []
    else if IsSpace(s[0]) then Words(s[1..])
    else
      var n := NonSpaceRun(s);
      assert AllKept(s) ==> AllKept(s[..n]) && AllKept(s[n..]);
      [s[..n]] + Words(s[n..])
  }

  /** `" ".join(ws)`. */
  function Join(ws: seq<string>): (r: string)
  {
    if ws == [] then ""
    else if |ws| == 1 then ws[0]
    else ws[0] + " " + Join(ws[1..])
  }

  // ---------------------------------------------------------------------
  // The cleaning expression
  // ---------------------------------------------------------------------

  /** The shape of cleaned text: ASCII letters, digits and single spaces,
      with no space at either end. */
  ghost predicate IsClean(t: string) {
    (forall i :: 0 <= i < |t| ==> IsAlnum(t[i]) || t[i] == ' ')
    && (|t| > 0 ==> t[0] != ' ' && t[|t| - 1] != ' ')
    && (forall i, j :: 0 <= i < j < |t| && j == i + 1 ==> t[i] != ' ' || t[j] != ' ')
  }

  /** `" ".join(re.sub("([^0-9A-Za-z \t])|(\w+:\/\/\S+)", "", s).split())`,
      at polarity.py:50 and polarity.py:194. */
  function Clean(s: string): (r: string)
    ensures IsClean(r)
  {
    var ws := Words(Strip(s));
    JoinIsClean(ws);
    Join(ws)
  }

  /** Joining pieces of ASCII letters and digits with single spaces gives
      cleaned text. */
  lemma {:induction false} JoinIsClean(ws: seq<string>)
    requires forall i :: 0 <= i < |ws| ==> AllKept(ws[i]) && IsWord(ws[i])
    ensures IsClean(Join(ws))
    ensures ws != [] ==> Join(ws) != []
  {
    if |ws| == 1 {
      var w := ws[0];
      assert forall j :: 0 <= j < |w| ==> IsKept(w[j]) && !IsSpace(w[j]);
    } else if |ws| > 1 {
      var w, t := ws[0], Join(ws[1..]);
      JoinIsClean(ws[1..]);
      assert forall j :: 0 <= j < |w| ==> IsKept(w[j]) && !IsSpace(w[j]);
      var r := w + " " + t;
      assert Join(ws) == r;
      forall i, j | 0 <= i < j < |r| && j == i + 1
        ensures r[i] != ' ' || r[j] != ' '
      {
        if i > |w| {
          assert r[i] == t[i - |w| - 1] && r[j] == t[j - |w| - 1];
        }
      }
    }
  }

  // ---------------------------------------------------------------------
  // Properties of the cleaning expression
  // ---------------------------------------------------------------------

  /** `" ".join(...)` of the pieces of `str.split()` restores cleaned text. */
  lemma {:induction false} JoinWordsOfClean(t: string)
    requires IsClean(t)
    ensures Join(Words(t)) == t
    decreases |t|
  {
    if t != [] {
      var n := NonSpaceRun(t);
      if n == |t| {
        WordsOfCleanWord(t);
      } else {
        WordsOfCleanStep(t, n);
        JoinWordsOfClean(t[n + 1..]);
        JoinCons(t[..n], Words(t[n + 1..]));
        assert t[n] == ' ';
        SplitAtSpace(t, n);
      }
    }
  }

  /** Cleaned text with no space in it is one piece. */
  lemma WordsOfCleanWord(t: string)
    requires IsClean(t) && t != [] && NonSpaceRun(t) == |t|
    ensures Words(t) == [t]
  {
    assert t[0] != ' ';
    WordsOfWord(t, []);
    AppendEmpty(t);
  }

  /** Cleaned text splits into its first word and the cleaned text after the
      space that follows it. */
  lemma WordsOfCleanStep(t: string, n: nat)
    requires IsClean(t) && n == NonSpaceRun(t) < |t|
    ensures n + 1 < |t| && IsClean(t[n + 1..]) && Words(t[n + 1..]) != []
    ensures Words(t) == [t[..n]] + Words(t[n + 1..])
  {
    assert t[0] != ' ';
    CleanAfterWord(t, n);
    CleanAfterSpace(t, n);
    DropDrop(t, n);
    WordsOfWordStart(t[n + 1..]);
  }

  /** In cleaned text, the first word is followed by exactly one space and
      more text. */
  lemma CleanAfterWord(t: string, n: nat)
    requires IsClean(t) && n == NonSpaceRun(t) < |t|
    ensures n + 1 < |t| && t[n] == ' ' && t[n + 1] != ' '
  {
  }

  /** What follows a space inside cleaned text is cleaned text. */
  lemma CleanAfterSpace(t: string, n: nat)
    requires IsClean(t) && n + 1 < |t| && t[n] == ' '
    ensures IsClean(t[n + 1..])
  {
    var rest := t[n + 1..];
    forall i, j | 0 <= i < j < |rest| && j == i + 1
      ensures rest[i] != ' ' || rest[j] != ' '
    {
      assert rest[i] == t[n + 1 + i] && rest[j] == t[n + 1 + j];
    }
  }

  lemma SplitAtSpace(t: string, n: nat)
    requires n + 1 < |t| && t[n] == ' '
    ensures t == t[..n] + (" " + t[n + 1..]) == t[..n] + " " + t[n + 1..]
  {
    SplitAt(t, n);
    ConsTail(t[n..]);
    assert t[n..][1..] == t[n + 1..];
    Assoc(t[..n], " ", t[n + 1..]);
  }

  /** `" ".join` of a word followed by a non-empty list. */
  lemma JoinCons(w: string, ws: seq<string>)
    requires ws != []
    ensures Join([w] + ws) == w + " " + Join(ws)
  {
    AppendTail([w], ws);
  }

  /** Text that starts with a non-whitespace character has a first piece. */
  lemma WordsOfWordStart(s: string)
    requires s != [] && !IsSpace(s[0])
    ensures Words(s) != []
  {
  }

  /** Text made only of characters the first alternative keeps, none of them
      ':', is left alone by the substitution. */
  lemma {:induction false} StripOfKept(t: string)
    requires AllKept(t)
    ensures Strip(t) == t
    decreases |t|
  {
    if t != [] {
      var w := WordRun(t);
      assert UrlMatch(t) == 0 by {
        if 0 < w && w + 3 < |t| {
          assert IsKept(t[w]);
        }
      }
      StripOfKept(t[1..]);
      assert t == [t[0]] + t[1..];
    }
  }

  /** Cleaned text is a fixed point of the cleaning expression. */
  lemma CleanOfClean(t: string)
    requires IsClean(t)
    ensures Clean(t) == t
  {
    StripOfKept(t);
    JoinWordsOfClean(t);
  }

  /** Cleaning is idempotent (polarity.py:50, polarity.py:194). */
  lemma CleanIdempotent(s: string)
    ensures Clean(Clean(s)) == Clean(s)
  {
    CleanOfClean(Clean(s));
  }

  /** `str.split()` undoes `" ".join(...)` on pieces free of whitespace. */
  lemma {:induction false} WordsOfJoin(ws: seq<string>)
    requires forall i :: 0 <= i < |ws| ==> IsWord(ws[i])
    ensures Words(Join(ws)) == ws
  {
    if |ws| == 1 {
      WordsOfWord(ws[0], "");
      AppendEmpty(ws[0]);
      AppendEmpty(Words(""));
    } else if |ws| > 1 {
      var w, t := ws[0], Join(ws[1..]);
      WordsOfJoin(ws[1..]);
      WordsOfWord(w, " " + t);
      WordsSkipSpaces(" ", t);
      Assoc(w, " ", t);
      ConsTail(ws);
    }
  }

  /** A piece followed by nothing or by whitespace is split off whole. */
  lemma {:induction false} WordsOfWord(w: string, rest: string)
    requires IsWord(w)
    requires rest == [] || IsSpace(rest[0])
    ensures Words(w + rest) == [w] + Words(rest)
  {
    NonSpaceRunOfWord(w, rest);
    SliceAppend(w, rest);
  }

  lemma {:induction false} NonSpaceRunOfWord(w: string, rest: string)
    requires forall i :: 0 <= i < |w| ==> !IsSpace(w[i])
    requires rest == [] || IsSpace(rest[0])
    ensures NonSpaceRun(w + rest) == |w|
    decreases |w|
  {
    if w != [] {
      AppendTail(w, rest);
      NonSpaceRunOfWord(w[1..], rest);
    }
  }

  /** Cleaning keeps the pieces of the substituted text: the words of the
      cleaned text are exactly the whitespace-separated pieces left after the
      substitution, in order. */
  lemma CleanKeepsWords(s: string)
    ensures Words(Clean(s)) == Words(Strip(s))
  {
    WordsOfJoin(Words(Strip(s)));
  }

  /** A reference definition of the first alternative alone: delete every
      character outside [0-9A-Za-z \t]. */
  function KeepAllowed(s: string): (r: string)
  {
    if s == [] then [] else (if IsKept(s[0]) then [s[0]] else []) + KeepAllowed(s[1..])
  }

  /** Without a ':' the second alternative never matches, and the
      substitution only deletes the characters outside [0-9A-Za-z \t], one
      by one, inserting nothing in their place. */
  lemma {:induction false} StripWithoutColon(s: string)
    requires NoColon(s)
    ensures Strip(s) == KeepAllowed(s)
    decreases |s|
  {
    if s != [] {
      NoColonNoUrl(s);
      NoColonTail(s);
      StripWithoutColon(s[1..]);
      if IsKept(s[0]) {
        StripKeep(s);
      } else {
        AppendEmpty(KeepAllowed(s[1..]));
      }
    }
  }

  predicate NoColon(s: string) {
    forall i :: 0 <= i < |s| ==> s[i] != ':'
  }

  lemma NoColonNoUrl(s: string)
    requires NoColon(s)
    ensures UrlMatch(s) == 0
  {
    var w := WordRun(s);
    if 0 < w && w + 3 < |s| {
      assert s[w] != ':';
    }
  }

  lemma NoColonTail(s: string)
    requires NoColon(s) && s != []
    ensures NoColon(s[1..])
  {
    assert forall i :: 0 <= i < |s| - 1 ==> s[1..][i] == s[i + 1];
  }

  /** Text of kept characters ending in a non-word character is never the
      start of a URL match that reaches beyond it: the substitution keeps it
      and works on what follows independently. */
  lemma {:induction false} StripKeptPrefix(a: string, b: string)
    requires AllKept(a)
    requires a != [] ==> !IsWordChar(a[|a| - 1])
    ensures Strip(a + b) == a + Strip(b)
    decreases |a|
  {
    if a != [] {
      StripConsKept(a, b);
      KeptTail(a);
      StripKeptPrefix(a[1..], b);
      Assoc([a[0]], a[1..], Strip(b));
      ConsTail(a);
    } else {
      AppendEmpty(b);
    }
  }

  lemma KeptTail(a: string)
    requires AllKept(a) && a != [] && !IsWordChar(a[|a| - 1])
    ensures AllKept(a[1..]) && (a[1..] != [] ==> !IsWordChar(a[1..][|a[1..]| - 1]))
  {
    var t := a[1..];
    assert forall i :: 0 <= i < |t| ==> t[i] == a[i + 1];
  }

  /** One step of the scan over kept text ending in a non-word character:
      its first character stays. */
  lemma StripConsKept(a: string, b: string)
    requires AllKept(a) && a != [] && !IsWordChar(a[|a| - 1])
    ensures Strip(a + b) == [a[0]] + Strip(a[1..] + b)
  {
    NoUrlBeforeNonWord(a, b);
    StripKeep(a + b);
    AppendTail(a, b);
  }

  /** The second alternative cannot match at the start of kept text that ends
      in a non-word character: the word run stops inside it, where the
      character is not ':'. */
  lemma NoUrlBeforeNonWord(a: string, b: string)
    requires AllKept(a) && a != [] && !IsWordChar(a[|a| - 1])
    ensures (a + b)[0] == a[0] && UrlMatch(a + b) == 0
  {
    var s := a + b;
    var w := WordRun(s);
    assert !IsWordChar(s[|a| - 1]);
    assert w < |a|;
    if 0 < w && w + 3 < |s| {
      assert s[w] == a[w];
    }
  }

  /** A kept character where the second alternative does not match stays. */
  lemma StripKeep(s: string)
    requires s != [] && IsKept(s[0]) && UrlMatch(s) == 0
    ensures Strip(s) == [s[0]] + Strip(s[1..])
  {
  }

  /** A URL-shaped token that starts with a kept character and runs up to
      whitespace or the end is deleted whole, trailing punctuation included. */
  lemma StripDropsUrl(u: string, rest: string)
    requires UrlShaped(u) && IsAlnum(u[0])
    requires rest == [] || IsSpace(rest[0])
    ensures Strip(u + rest) == Strip(rest)
  {
    UrlMatchOfUrl(u, rest);
    AppendTail(u, rest);
    SliceAppend(u, rest);
  }

  /** The second alternative matches exactly a URL-shaped token followed by
      whitespace or the end. */
  lemma UrlMatchOfUrl(u: string, rest: string)
    requires UrlShaped(u)
    requires rest == [] || IsSpace(rest[0])
    ensures UrlMatch(u + rest) == |u|
  {
    var s := u + rest;
    var w := WordRun(u);
    WordRunOfUrl(u, rest);
    assert s[w] == u[w] && s[w + 1] == u[w + 1] && s[w + 2] == u[w + 2];
    NonSpaceRunOfWord(u[w + 3..], rest);
    assert s[w + 3..] == u[w + 3..] + rest;
    assert s[w + 3] == u[w + 3];
  }

  /** The word run of a URL-shaped token stops before its "://", whatever
      follows the token. */
  lemma WordRunOfUrl(u: string, rest: string)
    requires UrlShaped(u)
    ensures WordRun(u + rest) == WordRun(u)
  {
    var s := u + rest;
    SliceAppend(u, rest);
    WordRunPrefix(s, |u|);
    assert WordRun(s[..|u|]) == WordRun(u);
  }

  lemma {:induction false} KeepAllowedConcat(a: string, b: string)
    ensures KeepAllowed(a + b) == KeepAllowed(a) + KeepAllowed(b)
  {
    if a == [] {
      AppendEmpty(b);
      AppendEmpty(KeepAllowed(b));
    } else {
      AppendTail(a, b);
      KeepAllowedConcat(a[1..], b);
      Assoc(if IsKept(a[0]) then [a[0]] else [], KeepAllowed(a[1..]), KeepAllowed(b));
    }
  }

  lemma {:induction false} KeepAllowedOfKept(t: string)
    requires AllKept(t)
    ensures KeepAllowed(t) == t
  {
    if t != [] {
      KeepAllowedOfKept(t[1..]);
      ConsTail(t);
    }
  }

  /** Leading whitespace produces no piece of `str.split()`. */
  lemma {:induction false} WordsSkipSpaces(sp: string, y: string)
    requires forall i :: 0 <= i < |sp| ==> IsSpace(sp[i])
    ensures Words(sp + y) == Words(y)
  {
    if sp == [] {
      AppendEmpty(y);
    } else {
      AppendTail(sp, y);
      WordsSkipSpaces(sp[1..], y);
    }
  }

  /** Whitespace between two parts separates their pieces. */
  lemma {:induction false} WordsSplitAtSpace(x: string, y: string)
    requires y != [] && IsSpace(y[0])
    ensures Words(x + y) == Words(x) + Words(y)
    decreases |x|
  {
    if x == [] {
      AppendEmpty(y);
      AppendEmpty(Words(y));
    } else if IsSpace(x[0]) {
      AppendTail(x, y);
      WordsSplitAtSpace(x[1..], y);
    } else {
      var n := NonSpaceRun(x);
      var w, r := x[..n], x[n..];
      assert IsWord(w);
      SplitAt(x, n);
      if n == |x| {
        WordsOfWord(x, y);
        WordsOfWord(x, []);
        AppendEmpty(x);
        AppendEmpty([x]);
      } else {
        WordsOfWord(w, r);
        Assoc(w, r, y);
        WordsOfWord(w, r + y);
        WordsSplitAtSpace(r, y);
        Assoc([w], Words(r), Words(y));
      }
    }
  }

  /** `" ".join` of two non-empty lists puts one space between their joins. */
  lemma {:induction false} JoinAppend(ws: seq<string>, vs: seq<string>)
    requires ws != [] && vs != []
    ensures Join(ws + vs) == Join(ws) + " " + Join(vs)
  {
    if |ws| == 1 {
      AppendTail(ws, vs);
      AppendEmpty(vs);
    } else {
      AppendTail(ws, vs);
      JoinAppend(ws[1..], vs);
      Assoc(ws[0] + " ", Join(ws[1..]) + " ", Join(vs));
      Assoc(ws[0] + " ", Join(ws[1..]), " ");
      Assoc(ws[0], " ", Join(ws[1..]) + " " + Join(vs));
    }
  }

  /** A URL-shaped token between two pieces of cleaned text disappears, with
      the whitespace around it collapsing to one space. */
  lemma CleanDropsUrl(p: string, u: string, sp: string, q: string)
    requires IsClean(p) && p != []
    requires UrlShaped(u) && IsAlnum(u[0])
    requires sp != [] && IsBlanks(sp)
    requires IsClean(q) && q != []
    ensures Clean(p + " " + u + sp + q) == p + " " + q
  {
    CleanIsKept(p);
    CleanIsKept(q);
    BlanksAreKept(sp);
    StripAroundUrl(p, u, sp, q);
    JoinAroundGap(p, sp, q);
  }

  /** Only spaces and tabs. */
  predicate IsBlanks(t: string) {
    forall i :: 0 <= i < |t| ==> t[i] == ' ' || t[i] == '\t'
  }

  lemma CleanIsKept(t: string)
    requires IsClean(t)
    ensures AllKept(t)
  {
  }

  lemma BlanksAreKept(t: string)
    requires t != [] && IsBlanks(t)
    ensures AllKept(t) && (t[0] == ' ' || t[0] == '\t')
  {
  }

  /** Splitting and re-joining cleaned text on both sides of a run of
      blanks leaves one space between them. */
  lemma JoinAroundGap(p: string, sp: string, q: string)
    requires IsClean(p) && p != []
    requires IsBlanks(sp)
    requires IsClean(q) && q != []
    ensures Join(Words(p + " " + (sp + q))) == p + " " + q
  {
    var gap := " " + sp;
    BlanksCons(sp);
    Assoc(p, " ", sp + q);
    Assoc(" ", sp, q);
    WordsAroundGap(p, gap, q);
    JoinWordsOfClean(p);
    JoinWordsOfClean(q);
    JoinAppend(Words(p), Words(q));
  }

  lemma BlanksCons(t: string)
    requires IsBlanks(t)
    ensures IsBlanks(" " + t)
  {
    var g := " " + t;
    forall i | 0 <= i < |g| ensures g[i] == ' ' || g[i] == '\t' {
      if i > 0 { assert g[i] == t[i - 1]; }
    }
  }

  /** The substitution on cleaned text, a URL-shaped token and more cleaned
      text after spaces and tabs: only the token goes. */
  lemma StripAroundUrl(p: string, u: string, sp: string, q: string)
    requires AllKept(p)
    requires UrlShaped(u) && IsAlnum(u[0])
    requires sp != [] && (sp[0] == ' ' || sp[0] == '\t') && AllKept(sp)
    requires AllKept(q)
    ensures Strip(p + " " + u + sp + q) == p + " " + (sp + q)
  {
    AllKeptAppend(p, " ");
    AllKeptAppend(sp, q);
    Assoc(p + " ", u, sp + q);
    Assoc(p + " " + u, sp, q);
    StripDropsUrlBetween(p + " ", u, sp + q);
  }

  lemma AllKeptAppend(x: string, y: string)
    requires AllKept(x) && AllKept(y)
    ensures AllKept(x + y)
  {
    assert forall i :: 0 <= i < |x + y| ==> (x + y)[i] == if i < |x| then x[i] else y[i - |x|];
  }

  /** Kept text ending in a space, a URL-shaped token, then kept text
      starting with whitespace: the substitution removes the token alone. */
  lemma StripDropsUrlBetween(a: string, u: string, rest: string)
    requires AllKept(a)
    requires a != [] && a[|a| - 1] == ' '
    requires UrlShaped(u) && IsAlnum(u[0])
    requires rest != [] && (rest[0] == ' ' || rest[0] == '\t')
    requires AllKept(rest)
    ensures Strip(a + (u + rest)) == a + rest
  {
    StripKeptPrefix(a, u + rest);
    StripDropsUrl(u, rest);
    StripOfKept(rest);
  }

  lemma WordsAroundGap(p: string, gap: string, q: string)
    requires gap != [] && gap[0] == ' '
    requires IsBlanks(gap)
    ensures Words(p + (gap + q)) == Words(p) + Words(q)
  {
    var y := gap + q;
    assert y[0] == ' ';
    WordsSplitAtSpace(p, y);
    WordsSkipSpaces(gap, q);
  }

  /** A word, "://" and a piece free of whitespace make a URL-shaped token. */
  lemma UrlShapedOf(w: string, v: string)
    requires w != [] && forall i :: 0 <= i < |w| ==> IsWordChar(w[i])
    requires v != [] && forall i :: 0 <= i < |v| ==> !IsSpace(v[i])
    ensures UrlShaped(w + "://" + v)
  {
    var t := w + "://" + v;
    WordRunPrefix(t, |w|);
    assert t[..|w|] == w;
    assert t[|w|] == ':';
    WordRunOfWord(w);
    assert t[|w|] == ':' && t[|w| + 1] == '/' && t[|w| + 2] == '/';
    assert forall i :: |w| + 3 <= i < |t| ==> t[i] == v[i - |w| - 3];
  }

  lemma {:induction false} WordRunOfWord(w: string)
    requires forall i :: 0 <= i < |w| ==> IsWordChar(w[i])
    ensures WordRun(w) == |w|
  {
    if w != [] {
      WordRunOfWord(w[1..]);
    }
  }

  /** The tweet "Check this out http://x.co/abc!!  now" cleans to
      "Check this out now": the URL goes with its trailing punctuation and
      the two spaces after it collapse with the one before into one. */
  lemma CleanUrlExample()
    ensures Clean("Check this out http://x.co/abc!!  now") == "Check this out now"
  {
    var p, u := "Check this out", "http" + "://" + "x.co/abc!!";
    UrlShapedOf("http", "x.co/abc!!");
    CleanDropsUrl(p, u, "  ", "now");
    ExampleSplit();
  }

  lemma ExampleSplit()
    ensures "Check this out http://x.co/abc!!  now"
         == "Check this out" + " " + ("http" + "://" + "x.co/abc!!") + "  " + "now"
    ensures "Check this out now" == "Check this out" + " " + "now"
  {
  }

  /** The first alternative is tried first at every position: a `_`, a word
      character outside the kept class, is deleted on its own before the
      URL alternative could take it as the start of `_://x`, and the scan
      then deletes `:`, `/`, `/` one by one and keeps `x`. */
  lemma UnderscoreBeforeUrl()
    ensures Strip("_://x") == "x"
  {
    assert UrlMatch("x") == 0;
  }

  /** A line break is outside [0-9A-Za-z \t]: the first alternative deletes
      it and puts no space in its place, so the words on either side merge. */
  lemma CleanMergesLines(a: string, b: string)
    requires a != [] && b != [] && AllAlnum(a) && AllAlnum(b)
    ensures Clean(a + "\n" + b) == a + b
  {
    StripMergesLines(a, b);
    AllAlnumIsClean(a + b);
    JoinWordsOfClean(a + b);
  }

  predicate AllAlnum(t: string) {
    forall i :: 0 <= i < |t| ==> IsAlnum(t[i])
  }

  lemma StripMergesLines(a: string, b: string)
    requires AllAlnum(a) && AllAlnum(b)
    ensures Strip(a + "\n" + b) == a + b && AllAlnum(a + b)
  {
    var s := a + "\n" + b;
    NoColonAroundLine(a, b);
    StripWithoutColon(s);
    KeepAllowedAroundLine(a, b);
    AllAlnumAppend(a, b);
  }

  lemma NoColonAroundLine(a: string, b: string)
    requires AllAlnum(a) && AllAlnum(b)
    ensures NoColon(a + "\n" + b)
  {
    var s := a + "\n" + b;
    forall i | 0 <= i < |s|
      ensures s[i] != ':'
    {
      if i < |a| {
        assert s[i] == a[i];
      } else if |a| < i {
        assert s[i] == b[i - |a| - 1];
      }
    }
  }

  lemma KeepAllowedAroundLine(a: string, b: string)
    requires AllAlnum(a) && AllAlnum(b)
    ensures KeepAllowed(a + "\n" + b) == a + b
  {
    KeepAllowedConcat(a + "\n", b);
    KeepAllowedConcat(a, "\n");
    KeepAllowedOfKept(a);
    KeepAllowedOfKept(b);
    AppendEmpty(a);
  }

  lemma AllAlnumAppend(a: string, b: string)
    requires AllAlnum(a) && AllAlnum(b)
    ensures AllAlnum(a + b)
  {
    assert forall i :: 0 <= i < |a + b| ==> (a + b)[i] == if i < |a| then a[i] else b[i - |a|];
  }

  lemma AllAlnumIsClean(t: string)
    requires AllAlnum(t)
    ensures IsClean(t)
  {
  }
}
