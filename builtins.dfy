/** The parts of Python 2 and its standard library that Spruce relies on,
    stated over Dafny values: dictionary values and `get`, `str.startswith`
    with a tuple, `str.rstrip`, `str.upper`, `str.rfind`,
    `os.path.splitext` and iteration over a `set`. */
module Builtins {

  /** A value found in a preference plist or a Python dictionary. */
  datatype Value =
    | Null
    | Bool(b: bool)
    | Int(i: int)
    | Str(s: string)
    | Array(elems: seq<Value>)
    | Dict(entries: map<string, Value>)

  /** The exception a subscript `d[key]` raises when `key` is missing. */
  datatype KeyError = KeyError(key: string)

  /** `d.get(key, default)`. */
  function DictGet(d: map<string, Value>, key: string, default: Value): (v: Value)
    ensures key in d ==> v == d[key]
    ensures key !in d ==> v == default
  {
    if key in d then d[key] else default
  }

  /** `s.startswith(prefixes)` where `prefixes` is a tuple of strings. */
  predicate StartsWithAny(s: string, prefixes: seq<string>)
  {
    exists p :: p in prefixes && p <= s
  }

  /** With one-character prefixes, `startswith` looks at the first character only. */
  lemma StartsWithCharacter(s: string, prefixes: seq<string>)
    requires forall p :: p in prefixes ==> |p| == 1
    ensures StartsWithAny(s, prefixes) <==> s != [] && [s[0]] in prefixes
  {
    if StartsWithAny(s, prefixes) {
      var p :| p in prefixes && p <= s;
      assert p == [s[0]];
    }
    if s != [] && [s[0]] in prefixes {
      assert [s[0]] <= s;
    }
  }

  /** `s.rstrip(c)` for a one-character argument: every trailing `c` is dropped. */
  function RStrip(s: string, c: char): (r: string)
    ensures r <= s
    ensures r == [] || r[|r| - 1] != c
    ensures forall k :: |r| <= k < |s| ==> s[k] == c
  {
    if s != [] && s[|s| - 1] == c then RStrip(s[..|s| - 1], c) else s
  }

  /** `str.upper` on one character of a Python 2 byte string (C locale):
      only the ASCII letters change. */
  function UpperChar(c: char): (u: char)
    ensures 'a' <= c <= 'z' ==> 'A' <= u <= 'Z' && u as int == c as int - 32
    ensures !('a' <= c <= 'z') ==> u == c
  {
    if 'a' <= c <= 'z' then (c as int - 32) as char else c
  }

  /** `s.upper()`. */
  function Upper(s: string): (r: string)
    ensures |r| == |s|
  {
    seq(|s|, i requires 0 <= i < |s| => UpperChar(s[i]))
  }

  /** `s.rfind(c)`: the last index holding `c`, or -1 when there is none. */
  function RFind(s: string, c: char): (r: int)
    ensures -1 <= r < |s|
    ensures 0 <= r ==> s[r] == c
  {
    if s == [] then -1
    else if s[|s| - 1] == c then |s| - 1
    else RFind(s[..|s| - 1], c)
  }

  /** No `c` lies after the index `rfind` returns. */
  lemma {:induction false} RFindIsLast(s: string, c: char)
    ensures forall k :: RFind(s, c) < k < |s| ==> s[k] != c
  {
    if s != [] && s[|s| - 1] != c {
      RFindIsLast(s[..|s| - 1], c);
    }
  }

  /** The string is made of '.' characters only. */
  predicate OnlyDots(s: string)
  {
    s == [] || (s[0] == '.' && OnlyDots(s[1..]))
  }

  /** `OnlyDots` means no character other than '.'. */
  lemma {:induction false} OnlyDotsIff(s: string)
    ensures OnlyDots(s) <==> forall k :: 0 <= k < |s| ==> s[k] == '.'
  {
    if s != [] {
      OnlyDotsIff(s[1..]);
      assert forall k :: 1 <= k < |s| ==> s[k] == s[1..][k - 1];
    }
  }

  /** `os.path.splitext(p)` on POSIX: the extension starts at the last '.'
      that lies after the last '/', provided that the file name before it
      is not made of dots only ("a/.profile" has no extension). */
  function SplitExt(p: string): (r: (string, string))
    ensures r.0 + r.1 == p
  {
    var sepIndex := RFind(p, '/');
    var dotIndex := RFind(p, '.');
    if sepIndex < dotIndex && !OnlyDots(p[sepIndex + 1..dotIndex]) then
      (p[..dotIndex], p[dotIndex..])
    else
      (p, [])
  }

  /** What `SplitExt` splits off is empty or a single '.' followed by no
      '.' and no '/', and it is split off only after a file name that is
      not made of dots only. */
  lemma SplitExtShape(p: string)
    ensures var r := SplitExt(p);
            r.1 == [] || (r.1[0] == '.' && '.' !in r.1[1..] && '/' !in r.1)
    ensures var r := SplitExt(p);
            r.1 != [] ==> !OnlyDots(r.0[RFind(r.0, '/') + 1..])
  {
    var sepIndex := RFind(p, '/');
    var dotIndex := RFind(p, '.');
    if sepIndex < dotIndex && !OnlyDots(p[sepIndex + 1..dotIndex]) {
      NoneAfterLast(p, '.', dotIndex + 1);
      assert p[dotIndex..][1..] == p[dotIndex + 1..];
      NoneAfterLast(p, '/', dotIndex);
      RFindPrefix(p, '/', dotIndex);
      assert p[..dotIndex][sepIndex + 1..] == p[sepIndex + 1..dotIndex];
    }
  }

  /** Whatever follows a file name that is not made of dots only, when it is
      a '.' followed by no '.' and no '/', is exactly what `SplitExt` splits
      off; with `SplitExtShape` this pins `SplitExt` down. */
  lemma SplitsAtExtension(stem: string, ext: string)
    requires !OnlyDots(stem[RFind(stem, '/') + 1..])
    requires ext != [] && ext[0] == '.' && '.' !in ext[1..] && '/' !in ext
    ensures SplitExt(stem + ext) == (stem, ext)
  {
    var p := stem + ext;
    var sepIndex := RFind(stem, '/');
    RFindAppend(stem, ext, '/');
    assert RFind(p, '/') == sepIndex;
    assert p == (stem + ['.']) + ext[1..];
    RFindAppend(stem + ['.'], ext[1..], '.');
    assert RFind(stem + ['.'], '.') == |stem|;
    assert RFind(p, '.') == |stem|;
    assert p[sepIndex + 1..|stem|] == stem[sepIndex + 1..];
    assert p[..|stem|] == stem && p[|stem|..] == ext;
  }

  /** Appending text without `c` leaves the last `c` where it was. */
  lemma {:induction false} RFindAppend(s: string, t: string, c: char)
    requires c !in t
    ensures RFind(s + t, c) == RFind(s, c)
    decreases |t|
  {
    if t == [] {
      assert s + t == s;
    } else {
      var init := t[..|t| - 1];
      assert (s + t)[..|s + t| - 1] == s + init;
      assert (s + t)[|s + t| - 1] == t[|t| - 1];
      RFindAppend(s, init, c);
    }
  }

  /** A suffix that starts after the last `c` holds no `c`. */
  lemma NoneAfterLast(s: string, c: char, n: nat)
    requires RFind(s, c) < n <= |s|
    ensures c !in s[n..]
  {
    RFindIsLast(s, c);
    assert forall k :: 0 <= k < |s| - n ==> s[n..][k] == s[n + k];
  }

  /** Searching a prefix that keeps the last occurrence finds the same index. */
  lemma {:induction false} RFindPrefix(s: string, c: char, n: nat)
    requires RFind(s, c) < n <= |s|
    ensures RFind(s[..n], c) == RFind(s, c)
    decreases |s|
  {
    RFindIsLast(s, c);
    if n < |s| {
      assert s[..|s| - 1][..n] == s[..n];
      RFindPrefix(s[..|s| - 1], c, n);
    } else {
      assert s[..n] == s;
    }
  }

  /** Iterating over a Python `set`: every element exactly once, in an order
      that the model leaves open. */
  method Enumerate(s: set<string>) returns (r: seq<string>)
    ensures forall x :: x in r <==> x in s
    ensures forall i, j :: 0 <= i < j < |r| ==> r[i] != r[j]
  {
    r := [];
    var rest := s;
    while rest != {}
      invariant rest <= s
      invariant forall x :: x in r <==> x in s && x !in rest
      invariant forall i, j :: 0 <= i < j < |r| ==> r[i] != r[j]
      decreases rest
    {
      var x :| x in rest;
      r := r + [x];
      rest := rest - {x};
    }
  }
}
