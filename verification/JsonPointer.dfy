/** Writing places as JSON pointers (RFC 6901, sections 3 and 4), the root as "/". */
module JsonPointer {
  import opened Sequences
  import opened Json

  /** Every c replaced by a string. */
  function ReplaceChar(s: string, c: char, sub: string): string {
    if s == [] then [] else (if s[0] == c then sub else [s[0]]) + ReplaceChar(s[1..], c, sub)
  }

  function Escape(key: string): string {
    ReplaceChar(ReplaceChar(key, '~', "~0"), '/', "~1")
  }

  function PushPath(parent: string, key: string): string {
    if parent == "" then "/" + Escape(key) else parent + "/" + Escape(key)
  }

  function JsonPointerPath(path: string): string {
    if path == "" then "/" else path
  }

  /** The string that pushing the keys one by one builds up. */
  function Pointer(path: Path): string {
    if path == [] then "" else PushPath(Pointer(path[..|path| - 1]), path[|path| - 1])
  }

  /** How a place is reported. */
  function Render(path: Path): string {
    JsonPointerPath(Pointer(path))
  }

  /** Every '~' followed by x replaced, with it, by c; from the left. */
  function ReplacePair(s: string, x: char, c: char): string {
    if |s| >= 2 && s[0] == '~' && s[1] == x then [c] + ReplacePair(s[2..], x, c)
    else if s == [] then []
    else [s[0]] + ReplacePair(s[1..], x, c)
  }

  /** First "~1", then "~0", as section 4 of RFC 6901 orders it. */
  function Unescape(token: string): string {
    ReplacePair(ReplacePair(token, '1', '/'), '0', '~')
  }

  function EscapeAll(path: Path): (r: seq<string>)
    ensures |r| == |path|
    ensures forall i :: 0 <= i < |path| ==> r[i] == Escape(path[i])
  {
    seq(|path|, i requires 0 <= i < |path| => Escape(path[i]))
  }

  function UnescapeAll(tokens: seq<string>): (r: Path)
    ensures |r| == |tokens|
    ensures forall i :: 0 <= i < |tokens| ==> r[i] == Unescape(tokens[i])
  {
    seq(|tokens|, i requires 0 <= i < |tokens| => Unescape(tokens[i]))
  }

  /** Reading a pointer back: the tokens after the first '/', unescaped. */
  function Decode(pointer: string): Path {
    UnescapeAll(Split(pointer, '/')[1..])
  }

  // ---- Tokens ----

  /** Every '~' is followed by '0'. */
  predicate TildeZero(s: string) {
    s == [] || (if s[0] == '~' then |s| >= 2 && s[1] == '0' && TildeZero(s[2..]) else TildeZero(s[1..]))
  }

  lemma {:induction false} TildesEscaped(key: string)
    ensures TildeZero(ReplaceChar(key, '~', "~0"))
  {
    if key != [] {
      TildesEscaped(key[1..]);
      var rest := ReplaceChar(key[1..], '~', "~0");
      assert key[0] == '~' ==> ("~0" + rest)[2..] == rest;
      assert key[0] != '~' ==> ([key[0]] + rest)[1..] == rest;
    }
  }

  lemma {:induction false} UndoTilde(key: string)
    ensures ReplacePair(ReplaceChar(key, '~', "~0"), '0', '~') == key
  {
    if key != [] {
      UndoTilde(key[1..]);
      var rest := ReplaceChar(key[1..], '~', "~0");
      assert key[0] == '~' ==> ("~0" + rest)[2..] == rest;
      assert key[0] != '~' ==> ([key[0]] + rest)[1..] == rest;
    }
  }

  lemma {:induction false} UndoSlash(s: string)
    requires TildeZero(s)
    ensures ReplacePair(ReplaceChar(s, '/', "~1"), '1', '/') == s
  {
    if s != [] {
      var rest := ReplaceChar(s[1..], '/', "~1");
      if s[0] == '/' {
        UndoSlash(s[1..]);
        assert ("~1" + rest)[2..] == rest;
      } else if s[0] == '~' {
        UndoSlash(s[2..]);
        var after := ReplaceChar(s[2..], '/', "~1");
        assert s[1..][1..] == s[2..];
        assert rest == ['0'] + after;
        assert ReplaceChar(s, '/', "~1") == ['~'] + rest;
        assert (['~'] + rest)[1..] == rest && rest[1..] == after;
        assert s == "~0" + s[2..];
      } else {
        UndoSlash(s[1..]);
        assert ([s[0]] + rest)[1..] == rest;
      }
    }
  }

  lemma EscapeUndone(key: string)
    ensures Unescape(Escape(key)) == key
  {
    TildesEscaped(key);
    UndoSlash(ReplaceChar(key, '~', "~0"));
    UndoTilde(key);
  }

  lemma {:induction false} NoSlash(s: string)
    ensures var e := ReplaceChar(s, '/', "~1"); Absent(e, '/', |e|)
  {
    if s != [] {
      NoSlash(s[1..]);
    }
  }

  // ---- Pointers ----

  lemma PointerSnoc(init: Path, key: string)
    ensures Pointer(init + [key]) == Pointer(init) + ['/'] + Escape(key)
  {
    assert (init + [key])[..|init|] == init;
  }

  lemma EscapeAllSnoc(init: Path, key: string)
    ensures [""] + EscapeAll(init + [key]) == ([""] + EscapeAll(init)) + [Escape(key)]
  {
  }

  /** A pointer is its escaped keys after an empty first token, joined by '/'. */
  lemma {:induction false} PointerIsJoin(path: Path)
    ensures Pointer(path) == Join([""] + EscapeAll(path), '/')
    decreases |path|
  {
    if path == [] {
      assert [""] + EscapeAll(path) == [""];
    } else {
      var init, key := path[..|path| - 1], path[|path| - 1];
      assert path == init + [key];
      PointerIsJoin(init);
      PointerSnoc(init, key);
      EscapeAllSnoc(init, key);
      JoinSnoc([""] + EscapeAll(init), Escape(key), '/');
    }
  }

  /** A pointer decodes to the keys it was made of. */
  lemma PointerDecodes(path: Path)
    ensures Decode(Pointer(path)) == path
  {
    PointerIsJoin(path);
    var tokens := [""] + EscapeAll(path);
    forall i | 0 <= i < |tokens|
      ensures Absent(tokens[i], '/', |tokens[i]|)
    {
      if i > 0 { NoSlash(ReplaceChar(path[i - 1], '~', "~0")); }
    }
    SplitJoin(tokens, '/');
    assert tokens[1..] == EscapeAll(path);
    forall i | 0 <= i < |path|
      ensures Unescape(Escape(path[i])) == path[i]
    {
      EscapeUndone(path[i]);
    }
  }

  lemma PointerEmptyIff(path: Path)
    ensures Pointer(path) == "" <==> path == []
  {
  }

  /** Every non-empty place is recovered from its report. */
  lemma RenderDecodes(path: Path)
    requires path != []
    ensures Decode(Render(path)) == path
  {
    PointerEmptyIff(path);
    PointerDecodes(path);
  }

  lemma PointerInjective(p: Path, q: Path)
    requires Pointer(p) == Pointer(q)
    ensures p == q
  {
    PointerDecodes(p);
    PointerDecodes(q);
  }

  lemma EmptyKeyPointer()
    ensures Pointer([""]) == "/"
  {
    assert [""][..0] == [];
    assert Escape("") == "";
  }

  /** Two places share a report only when they are the root and the single empty key. */
  lemma RenderClash(p: Path, q: Path)
    ensures Render(p) == Render(q) <==> p == q || (p == [] && q == [""]) || (p == [""] && q == [])
  {
    EmptyKeyPointer();
    PointerEmptyIff(p);
    PointerEmptyIff(q);
    if Render(p) == Render(q) {
      PointerInjective(if p == [] then [""] else p, if q == [] then [""] else q);
    }
  }
}
