// The dot-separated field path with backtick quoting (gamesync_store.go,
// fieldPath): the scanner, its loop, and two printers that it inverts.

module FieldPath {
  import opened Wrappers

  /** Everything the scanner remembers between two characters. */
  datatype Scan = Scan(parts: seq<string>, part: string, quoted: bool, escaped: bool)

  const START := Scan([], "", false, false)

  function ScanChar(st: Scan, c: char): Result<Scan> {
    if st.escaped then
      Ok(st.(part := st.part + [c], escaped := false))
    else if c == '\\' && st.quoted then
      Ok(st.(escaped := true))
    else if c == '`' then
      Ok(st.(quoted := !st.quoted))
    else if c == '.' && !st.quoted then
      if st.part == "" then Err(InvalidArgument)
      else Ok(st.(parts := st.parts + [st.part], part := ""))
    else
      Ok(st.(part := st.part + [c]))
  }

  function ScanAll(st: Scan, path: string): Result<Scan>
    decreases |path|
  {
    if path == "" then Ok(st)
    else
      var next :- ScanChar(st, path[0]);
      ScanAll(next, path[1..])
  }

  function ParseFieldPath(path: string): Result<seq<string>> {
    var st :- ScanAll(START, path);
    if st.quoted || st.escaped || st.part == "" || path == "*" then Err(InvalidArgument)
    else Ok(st.parts + [st.part])
  }

  method ReadFieldPath(path: string) returns (r: Result<seq<string>>)
    ensures r == ParseFieldPath(path)
  {
    var parts, part, quoted, escaped := [], "", false, false;
    var i := 0;
    while i < |path|
      invariant 0 <= i <= |path|
      invariant ScanAll(START, path) == ScanAll(Scan(parts, part, quoted, escaped), path[i..])
    {
      var c := path[i];
      assert path[i..][0] == c && path[i..][1..] == path[i + 1..];
      i := i + 1;
      if escaped {
        part := part + [c];
        escaped := false;
        continue;
      }
      if c == '\\' && quoted {
        escaped := true;
        continue;
      }
      if c == '`' {
        quoted := !quoted;
        continue;
      }
      if c == '.' && !quoted {
        if part == "" {
          return Err(InvalidArgument);
        }
        parts, part := parts + [part], "";
      } else {
        part := part + [c];
      }
    }
    assert path[i..] == "";
    if quoted || escaped || part == "" || path == "*" {
      return Err(InvalidArgument);
    }
    return Ok(parts + [part]);
  }

  /** A field path denotes a non-empty list of non-empty keys. */
  ghost predicate IsKeyPath(keys: seq<string>) {
    |keys| > 0 && NonEmptyKeys(keys)
  }

  ghost predicate NonEmptyKeys(keys: seq<string>) {
    forall k :: 0 <= k < |keys| ==> keys[k] != ""
  }

  lemma {:induction false} ScanKeepsKeys(st: Scan, path: string)
    requires NonEmptyKeys(st.parts) && ScanAll(st, path).Ok?
    ensures NonEmptyKeys(ScanAll(st, path).value.parts)
    decreases |path|
  {
    if path != "" {
      ScanKeepsKeys(ScanChar(st, path[0]).value, path[1..]);
    }
  }

  lemma ParsedPathIsKeyPath(path: string)
    requires ParseFieldPath(path).Ok?
    ensures IsKeyPath(ParseFieldPath(path).value)
  {
    ScanKeepsKeys(START, path);
  }

  // ----- the quoting printer -----

  /** Backslash-escape what the scanner treats specially inside backticks. */
  function Escape(key: string): string {
    if key == "" then ""
    else (if key[0] == '`' || key[0] == '\\' then ['\\', key[0]] else [key[0]]) + Escape(key[1..])
  }

  function Quote(key: string): string {
    "`" + Escape(key) + "`"
  }

  function PrintPath(keys: seq<string>): string
    requires |keys| > 0
  {
    if |keys| == 1 then Quote(keys[0])
    else PrintPath(keys[..|keys| - 1]) + "." + Quote(keys[|keys| - 1])
  }

  lemma {:induction false} ScanAppend(st: Scan, a: string, b: string)
    requires ScanAll(st, a).Ok?
    ensures ScanAll(st, a + b) == ScanAll(ScanAll(st, a).value, b)
    decreases |a|
  {
    if a == "" {
      assert a + b == b;
    } else {
      assert (a + b)[1..] == a[1..] + b;
      ScanAppend(ScanChar(st, a[0]).value, a[1..], b);
    }
  }

  lemma {:induction false} ScanEscaped(parts: seq<string>, part: string, key: string)
    ensures ScanAll(Scan(parts, part, true, false), Escape(key)) == Ok(Scan(parts, part + key, true, false))
    decreases |key|
  {
    var st := Scan(parts, part, true, false);
    if key == "" {
      assert part + key == part;
    } else {
      var c, rest := key[0], key[1..];
      var head := if c == '`' || c == '\\' then ['\\', c] else [c];
      ScanHead(parts, part, c);
      ScanAppend(st, head, Escape(rest));
      ScanEscaped(parts, part + [c], rest);
      assert part + [c] + rest == part + key;
    }
  }

  lemma ScanHead(parts: seq<string>, part: string, c: char)
    ensures var head := if c == '`' || c == '\\' then ['\\', c] else [c];
            ScanAll(Scan(parts, part, true, false), head) == Ok(Scan(parts, part + [c], true, false))
  {
    var st := Scan(parts, part, true, false);
    if c == '`' || c == '\\' {
      var head := ['\\', c];
      assert head[1..] == [c] && [c][1..] == "";
      assert ScanChar(st, head[0]) == Ok(st.(escaped := true));
      assert ScanAll(st.(escaped := true), [c]) == ScanAll(st.(part := part + [c]), "");
    } else {
      assert [c][1..] == "";
    }
  }

  lemma ScanQuoted(parts: seq<string>, key: string)
    ensures ScanAll(Scan(parts, "", false, false), Quote(key)) == Ok(Scan(parts, key, false, false))
  {
    var st := Scan(parts, "", false, false);
    var tick := "`";
    assert tick[1..] == "";
    ScanEscaped(parts, "", key);
    assert "" + key == key;
    assert Quote(key) == tick + (Escape(key) + tick);
    ScanAppend(st, tick, Escape(key) + tick);
    ScanAppend(Scan(parts, "", true, false), Escape(key), tick);
    assert ScanAll(Scan(parts, key, true, false), tick) == ScanAll(Scan(parts, key, false, false), "");
  }

  lemma {:induction false} ScanPrinted(keys: seq<string>)
    requires IsKeyPath(keys)
    ensures ScanAll(START, PrintPath(keys)) == Ok(Scan(keys[..|keys| - 1], keys[|keys| - 1], false, false))
    decreases |keys|
  {
    var n := |keys| - 1;
    if n == 0 {
      ScanQuoted([], keys[0]);
    } else {
      var front := keys[..n];
      ScanPrinted(front);
      var st := Scan(front[..n - 1], front[n - 1], false, false);
      var dot := ".";
      assert dot[1..] == "";
      assert front[..n - 1] + [front[n - 1]] == front;
      assert ScanAll(st, dot) == ScanAll(Scan(front, "", false, false), "");
      assert PrintPath(keys) == PrintPath(front) + (dot + Quote(keys[n]));
      ScanAppend(START, PrintPath(front), dot + Quote(keys[n]));
      ScanAppend(st, dot, Quote(keys[n]));
      ScanQuoted(front, keys[n]);
    }
  }

  /** Parser completeness: every non-empty list of non-empty keys has a path
      that parses to it, whatever characters the keys hold. */
  lemma PrintedPathParses(keys: seq<string>)
    requires IsKeyPath(keys)
    ensures ParseFieldPath(PrintPath(keys)) == Ok(keys)
  {
    ScanPrinted(keys);
    PrintedStartsQuoted(keys);
    assert keys[..|keys| - 1] + [keys[|keys| - 1]] == keys;
  }

  /** The parser's image, exactly: the lists some path denotes. */
  lemma ParserImage(keys: seq<string>)
    ensures (exists path :: ParseFieldPath(path) == Ok(keys)) <==> IsKeyPath(keys)
  {
    if path :| ParseFieldPath(path) == Ok(keys) {
      ParsedPathIsKeyPath(path);
    }
    if IsKeyPath(keys) {
      PrintedPathParses(keys);
    }
  }

  lemma {:induction false} PrintedStartsQuoted(keys: seq<string>)
    requires |keys| > 0
    ensures |PrintPath(keys)| > 0 && PrintPath(keys)[0] == '`'
    decreases |keys|
  {
    if |keys| > 1 {
      PrintedStartsQuoted(keys[..|keys| - 1]);
    }
  }

  // ----- plain paths -----

  ghost predicate PlainKeys(keys: seq<string>) {
    forall k :: 0 <= k < |keys| ==> '.' !in keys[k] && '`' !in keys[k]
  }

  function JoinDots(keys: seq<string>): string
    requires |keys| > 0
  {
    if |keys| == 1 then keys[0]
    else JoinDots(keys[..|keys| - 1]) + "." + keys[|keys| - 1]
  }

  lemma {:induction false} ScanPlain(parts: seq<string>, part: string, key: string)
    requires '.' !in key && '`' !in key
    ensures ScanAll(Scan(parts, part, false, false), key) == Ok(Scan(parts, part + key, false, false))
    decreases |key|
  {
    if key == "" {
      assert part + key == part;
    } else {
      assert key[0] in key && forall c :: c in key[1..] ==> c in key;
      ScanPlain(parts, part + [key[0]], key[1..]);
      assert part + [key[0]] + key[1..] == part + key;
    }
  }

  lemma {:induction false} ScanJoined(keys: seq<string>)
    requires IsKeyPath(keys) && PlainKeys(keys)
    ensures ScanAll(START, JoinDots(keys)) == Ok(Scan(keys[..|keys| - 1], keys[|keys| - 1], false, false))
    decreases |keys|
  {
    var n := |keys| - 1;
    if n == 0 {
      ScanPlain([], "", keys[0]);
      assert "" + keys[0] == keys[0];
    } else {
      var front := keys[..n];
      ScanJoined(front);
      var st := Scan(front[..n - 1], front[n - 1], false, false);
      var dot := ".";
      assert dot[1..] == "";
      assert front[..n - 1] + [front[n - 1]] == front;
      assert ScanAll(st, dot) == ScanAll(Scan(front, "", false, false), "");
      assert JoinDots(keys) == JoinDots(front) + (dot + keys[n]);
      ScanAppend(START, JoinDots(front), dot + keys[n]);
      ScanAppend(st, dot, keys[n]);
      ScanPlain(front, "", keys[n]);
      assert "" + keys[n] == keys[n];
    }
  }

  /** Keys without dots and backticks may be joined unquoted; the one path the
      parser then still refuses is the wildcard. */
  lemma PlainPathParses(keys: seq<string>)
    requires IsKeyPath(keys) && PlainKeys(keys)
    ensures ParseFieldPath(JoinDots(keys)) == if keys == ["*"] then Err(InvalidArgument) else Ok(keys)
  {
    ScanJoined(keys);
    assert keys[..|keys| - 1] + [keys[|keys| - 1]] == keys;
    if |keys| > 1 {
      assert '.' in JoinDots(keys);
    }
  }
}
