/**
 Derivation paths of hierarchical deterministic wallets (BIP-32 notation, BIP-44
 section "Path levels"): parsing and printing.
 */
module HdPath {
  import opened Basics

  const HARDENED: nat := 0x8000_0000
  const MAX_UINT32: nat := 0xFFFF_FFFF

  /** m/44'/60'/0'/0, to which relative paths are appended. */
  const DEFAULT_ROOT: seq<nat> := [HARDENED + 44, HARDENED + 60, HARDENED, 0]

  type Path = seq<nat>

  predicate Fits(path: Path) {
    forall i :: 0 <= i < |path| ==> path[i] <= MAX_UINT32
  }

  /** Unicode white space. */
  predicate IsSpace(c: char) {
    var n := c as int;
    || 0x09 <= n <= 0x0d || n == 0x20 || n == 0x85 || n == 0xa0
    || n == 0x1680 || 0x2000 <= n <= 0x200a || n == 0x2028 || n == 0x2029 || n == 0x202f || n == 0x205f || n == 0x3000
  }

  function TrimLeft(s: string): string {
    if s != "" && IsSpace(s[0]) then TrimLeft(s[1..]) else s
  }

  function TrimRight(s: string): string {
    if s != "" && IsSpace(s[|s| - 1]) then TrimRight(s[..|s| - 1]) else s
  }

  function TrimSpace(s: string): string {
    TrimRight(TrimLeft(s))
  }

  /** One more character in front: a slash begins a new part. */
  function InFront(c: char, parts: seq<string>): (r: seq<string>)
    requires parts != []
    ensures r != []
  {
    if c == '/' then [""] + parts else [[c] + parts[0]] + parts[1..]
  }

  /** `strings.Split` at slashes. */
  function Split(s: string): (r: seq<string>)
    ensures |r| > 0
  {
    if s == "" then [""] else InFront(s[0], Split(s[1..]))
  }

  /** The value of a digit in bases up to 36; 37 if it is none. */
  function DigitValue(c: char): nat {
    if '0' <= c <= '9' then (c - '0') as nat
    else if 'a' <= c <= 'z' then (c - 'a') as nat + 10
    else if 'A' <= c <= 'Z' then (c - 'A') as nat + 10
    else 37
  }

  /** A number in the given base, if all characters are digits of it and there is one. */
  function ParseDigits(s: string, base: nat): Option<nat> {
    if s == "" then None
    else if DigitValue(s[|s| - 1]) >= base then None
    else if |s| == 1 then Some(DigitValue(s[0]))
    else
      var front := ParseDigits(s[..|s| - 1], base);
      if front.None? then None else Some(front.value * base + DigitValue(s[|s| - 1]))
  }

  /** An unsigned number whose prefix tells the base, as `big.Int.SetString` reads it with base zero. */
  function ParseNumber(s: string): Option<nat> {
    if |s| >= 2 && s[0] == '0' then
      if s[1] == 'x' || s[1] == 'X' then ParseDigits(s[2..], 16)
      else if s[1] == 'b' || s[1] == 'B' then ParseDigits(s[2..], 2)
      else ParseDigits(s[1..], 8)
    else ParseDigits(s, 10)
  }

  function ParseSigned(s: string): Option<int> {
    if s != "" && (s[0] == '+' || s[0] == '-') then
      var n := ParseNumber(s[1..]);
      if n.None? then None
      else
        var value: int := n.value;
        Some(if s[0] == '-' then -value else value)
    else
      var n := ParseNumber(s);
      if n.None? then None else Some(n.value)
  }

  /** A number that still fits after the base has been added to it. */
  function InRange(number: Option<int>, base: nat): Option<nat>
    requires base <= MAX_UINT32
  {
    if number.None? || number.value < 0 || number.value > MAX_UINT32 - base then None else Some(base + number.value)
  }

  /** One component: a number within its range, hardened if a quote follows it. */
  function Component(text: string, number: string -> Option<int>): Option<nat> {
    var trimmed := TrimSpace(text);
    if trimmed != "" && trimmed[|trimmed| - 1] == '\'' then InRange(number(TrimSpace(trimmed[..|trimmed| - 1])), HARDENED)
    else InRange(number(trimmed), 0)
  }

  function ParseComponent(text: string): (r: Option<nat>)
    ensures r.Some? ==> r.value <= MAX_UINT32
  {
    Component(text, ParseSigned)
  }

  /** All texts read, if each can be. */
  function Each(texts: seq<string>, read: string -> Option<nat>): (r: Option<Path>)
    ensures r.Some? ==> |r.value| == |texts| && forall i :: 0 <= i < |texts| ==> read(texts[i]) == Some(r.value[i])
  {
    if texts == [] then Some([])
    else
      var front := Each(texts[..|texts| - 1], read);
      var last := read(texts[|texts| - 1]);
      if front.None? || last.None? then None else Some(front.value + [last.value])
  }

  function ParseComponents(texts: seq<string>): (r: Option<Path>)
    ensures r.Some? ==> |r.value| == |texts| && Fits(r.value)
  {
    Each(texts, ParseComponent)
  }

  /** The path that components stand for; the first one tells whether it is relative. */
  function PathOf(components: seq<string>, read: string -> Option<nat>): Option<Path>
    requires components != []
  {
    if TrimSpace(components[0]) == "" then None
    else if TrimSpace(components[0]) == "m" then
      if |components| == 1 then None else Each(components[1..], read)
    else
      var rest := Each(components, read);
      if rest.None? then None else Some(DEFAULT_ROOT + rest.value)
  }

  /** The path a text stands for. */
  function Parsed(text: string): Option<Path> {
    PathOf(Split(text), ParseComponent)
  }

  method ParseDerivationPath(text: string) returns (r: Option<Path>)
    ensures r == Parsed(text)
    ensures r.Some? ==> r.value != [] && Fits(r.value)
  {
    var result: Path := [];
    var components := Split(text);
    if TrimSpace(components[0]) == "" {
      return None;
    } else if TrimSpace(components[0]) == "m" {
      components := components[1..];
    } else {
      result := DEFAULT_ROOT;
    }
    if |components| == 0 {
      return None;
    }
    ghost var rest := ParseComponents(components);
    assert rest.Some? ==> [] + rest.value == rest.value;
    r := AppendAll(result, components);
  }

  /** Parses the components and appends them one by one. */
  method AppendAll(root: Path, components: seq<string>) returns (r: Option<Path>)
    ensures r == if ParseComponents(components).None? then None else Some(root + ParseComponents(components).value)
  {
    var result := root;
    for i := 0 to |components|
      invariant ParseComponents(components[..i]).Some? && result == root + ParseComponents(components[..i]).value
    {
      ParseMore(components, i);
      var value := ParseComponent(components[i]);
      if value.None? {
        FailsThroughout(components, i + 1);
        return None;
      }
      result := result + [value.value];
    }
    assert components[..|components|] == components;
    return Some(result);
  }

  lemma ParseMore(texts: seq<string>, i: nat)
    requires i < |texts| && ParseComponents(texts[..i]).Some?
    ensures ParseComponents(texts[..i + 1]) ==
      if ParseComponent(texts[i]).None? then None else Some(ParseComponents(texts[..i]).value + [ParseComponent(texts[i]).value])
  {
    assert texts[..i + 1][..i] == texts[..i];
  }

  lemma {:induction false} FailsThroughout(texts: seq<string>, n: nat)
    requires n <= |texts| && ParseComponents(texts[..n]).None?
    ensures ParseComponents(texts).None?
    decreases |texts| - n
  {
    if n == |texts| {
      assert texts[..n] == texts;
    } else {
      assert texts[..n + 1][..n] == texts[..n];
      FailsThroughout(texts, n + 1);
    }
  }

  function Digit(d: nat): char
    requires d < 10
  {
    '0' + d as char
  }

  function Digits(n: nat): (s: string)
    ensures s != "" && forall i :: 0 <= i < |s| ==> '0' <= s[i] <= '9'
  {
    if n < 10 then [Digit(n)] else Digits(n / 10) + [Digit(n % 10)]
  }

  function PrintComponent(c: nat): string {
    if c >= HARDENED then Digits(c - HARDENED) + "'" else Digits(c)
  }

  /** The components of a path, each after a slash. */
  ghost function Tail(path: Path): string {
    if path == [] then "" else Tail(path[..|path| - 1]) + "/" + PrintComponent(path[|path| - 1])
  }

  /** `DerivationPath.String`. */
  method ToString(path: Path) returns (s: string)
    ensures s == "m" + Tail(path)
  {
    s := "m";
    assert "m" + Tail(path[..0]) == "m";
    for i := 0 to |path|
      invariant s == "m" + Tail(path[..i])
    {
      TailMore(path, i);
      var text := PrintOne(path[i]);
      s := s + ("/" + text);
    }
    assert path[..|path|] == path;
  }

  /** A hardened component is printed without its top bit and with a quote. */
  method PrintOne(c: nat) returns (text: string)
    ensures text == PrintComponent(c)
  {
    var component, hardened := c, false;
    if component >= HARDENED {
      component, hardened := component - HARDENED, true;
    }
    text := Digits(component);
    if hardened {
      text := text + "'";
    }
  }

  lemma TailMore(path: Path, i: nat)
    requires i < |path|
    ensures "m" + Tail(path[..i + 1]) == "m" + Tail(path[..i]) + ("/" + PrintComponent(path[i]))
  {
    assert path[..i + 1][..i] == path[..i];
  }

  /** Text without slashes. */
  ghost predicate Plain(s: string) {
    forall i :: 0 <= i < |s| ==> s[i] != '/'
  }

  lemma {:induction false} SplitPlain(a: string)
    requires Plain(a)
    ensures Split(a) == [a]
  {
    if a == "" {
    } else {
      SplitPlain(a[1..]);
      assert a == [a[0]] + a[1..];
    }
  }

  /** Splitting at a slash splits both sides. */
  lemma {:induction false} SplitAtSlash(a: string, b: string)
    ensures Split(a + "/" + b) == Split(a) + Split(b)
    decreases |a|
  {
    var s := a + "/" + b;
    if a == "" {
      assert s[1..] == b;
    } else {
      SplitAtSlash(a[1..], b);
      assert s[1..] == a[1..] + "/" + b;
      InFrontJoins(a[0], Split(a[1..]), Split(b));
    }
  }

  lemma InFrontJoins(c: char, parts: seq<string>, back: seq<string>)
    requires parts != []
    ensures InFront(c, parts + back) == InFront(c, parts) + back
  {
  }

  ghost function Texts(path: Path): (r: seq<string>)
    ensures |r| == |path|
  {
    if path == [] then [] else Texts(path[..|path| - 1]) + [PrintComponent(path[|path| - 1])]
  }

  lemma {:induction false} SplitTail(path: Path)
    ensures Split("m" + Tail(path)) == ["m"] + Texts(path)
  {
    if path == [] {
      SplitPlain("m");
      assert "m" + Tail(path) == "m";
    } else {
      var init, last := path[..|path| - 1], PrintComponent(path[|path| - 1]);
      SplitTail(init);
      SplitAtSlash("m" + Tail(init), last);
      SplitPlain(last);
      assert "m" + Tail(path) == ("m" + Tail(init)) + "/" + last;
    }
  }

  lemma NoSpaceToTrim(s: string)
    requires s != "" && !IsSpace(s[0]) && !IsSpace(s[|s| - 1])
    ensures TrimSpace(s) == s
  {
  }

  /** Printing a number and reading its digits gives the number back. */
  lemma {:induction false} DigitsParse(n: nat)
    ensures ParseDigits(Digits(n), 10) == Some(n)
  {
    if n < 10 {
    } else {
      DigitsParse(n / 10);
      var s := Digits(n);
      assert s[..|s| - 1] == Digits(n / 10);
      assert DigitValue(s[|s| - 1]) == n % 10;
    }
  }

  /** A number is printed without leading zeros. */
  lemma {:induction false} NoLeadingZero(n: nat)
    ensures Digits(n)[0] == '0' <==> n == 0
    ensures n == 0 ==> Digits(n) == "0"
  {
    if n < 10 {
    } else {
      NoLeadingZero(n / 10);
    }
  }

  lemma DigitsAreNumber(n: nat)
    ensures ParseSigned(Digits(n)) == Some(n)
  {
    DigitsParse(n);
    NoLeadingZero(n);
  }

  /** Reading a printed component gives the component back. */
  lemma ComponentRoundTrip(c: nat)
    requires c <= MAX_UINT32
    ensures ParseComponent(PrintComponent(c)) == Some(c)
  {
    var v := if c >= HARDENED then c - HARDENED else c;
    DigitsAreNumber(v);
    NoSpaceToTrim(Digits(v));
    NoSpaceToTrim(PrintComponent(c));
    if c >= HARDENED {
      var s := PrintComponent(c);
      assert s[..|s| - 1] == Digits(v);
    }
  }

  lemma {:induction false} ComponentsRoundTrip(path: Path)
    requires Fits(path)
    ensures ParseComponents(Texts(path)) == Some(path)
  {
    if path == [] {
    } else {
      var init := path[..|path| - 1];
      ComponentsRoundTrip(init);
      ComponentRoundTrip(path[|path| - 1]);
      var texts := Texts(path);
      assert texts[..|texts| - 1] == Texts(init) && texts[|texts| - 1] == PrintComponent(path[|path| - 1]);
      assert path == init + [path[|path| - 1]];
    }
  }

  /** Parsing what was printed gives the path back, except for the empty path, which has no text. */
  lemma RoundTrip(path: Path)
    requires Fits(path)
    ensures Parsed("m" + Tail(path)) == if path == [] then None else Some(path)
  {
    SplitTail(path);
    NoSpaceToTrim("m");
    ComponentsRoundTrip(path);
    assert (["m"] + Texts(path))[1..] == Texts(path);
  }

  /** Whatever text is accepted, printing its path gives a text that parses to the same path. */
  lemma Reprint(text: string)
    requires Parsed(text).Some?
    ensures Parsed("m" + Tail(Parsed(text).value)) == Parsed(text)
  {
    var path := Parsed(text).value;
    assert Fits(path) && path != [];
    RoundTrip(path);
  }

  // ----- relative paths -----

  /** Texts are read one by one. */
  lemma {:induction false} EachJoins(front: seq<string>, back: seq<string>, read: string -> Option<nat>)
    ensures Each(front + back, read) ==
      if Each(front, read).None? || Each(back, read).None? then None else Some(Each(front, read).value + Each(back, read).value)
  {
    var all := front + back;
    if back == [] {
      assert all == front;
      if Each(front, read).Some? { assert Each(front, read).value + [] == Each(front, read).value; }
    } else {
      var init := back[..|back| - 1];
      EachJoins(front, init, read);
      assert all[..|all| - 1] == front + init;
      var a, b, last := Each(front, read), Each(init, read), read(back[|back| - 1]);
      if a.Some? && b.Some? && last.Some? { assert a.value + (b.value + [last.value]) == (a.value + b.value) + [last.value]; }
    }
  }

  lemma Printed(path: Path, c: nat)
    ensures Texts(path + [c]) == Texts(path) + [PrintComponent(c)] && Tail(path + [c]) == Tail(path) + "/" + PrintComponent(c)
  {
    assert (path + [c])[..|path|] == path;
  }

  lemma RootComponents()
    ensures PrintComponent(HARDENED + 44) == "44'" && PrintComponent(HARDENED + 60) == "60'"
    ensures PrintComponent(HARDENED) == "0'" && PrintComponent(0) == "0"
  {
    assert Digits(4) == "4" && Digits(6) == "6" && Digits(0) == "0";
  }

  lemma HardenedTail()
    ensures Tail([HARDENED + 44, HARDENED + 60]) == "/44'/60'"
  {
    RootComponents();
    assert [] + [HARDENED + 44] == [HARDENED + 44] && [HARDENED + 44] + [HARDENED + 60] == [HARDENED + 44, HARDENED + 60];
    Printed([], HARDENED + 44);
    assert Tail([HARDENED + 44]) == "/44'";
    Printed([HARDENED + 44], HARDENED + 60);
  }

  lemma RootTail()
    ensures "m" + Tail(DEFAULT_ROOT) == "m/44'/60'/0'/0"
  {
    HardenedTail();
    RootComponents();
    var b, c: Path := [HARDENED + 44, HARDENED + 60], [HARDENED + 44, HARDENED + 60, HARDENED];
    assert b + [HARDENED] == c && c + [0] == DEFAULT_ROOT;
    Printed(b, HARDENED);
    assert Tail(c) == "/44'/60'/0'";
    Printed(c, 0);
  }

  /** The first component is neither empty nor the root's. */
  predicate Relative(text: string) {
    TrimSpace(Split(text)[0]) != "" && TrimSpace(Split(text)[0]) != "m"
  }

  /** Under the root's texts, components mean what they mean as a relative path. */
  lemma UnderTheRoot(root: seq<string>, components: seq<string>, read: string -> Option<nat>)
    requires components != [] && TrimSpace(components[0]) !in ["", "m"] && Each(root, read) == Some(DEFAULT_ROOT)
    ensures PathOf(components, read) == PathOf(["m"] + root + components, read)
  {
    NoSpaceToTrim("m");
    EachJoins(root, components, read);
    assert (["m"] + root + components)[1..] == root + components;
  }

  lemma UnderThePath(root: string, text: string)
    requires Relative(text) && root == "m" + Tail(DEFAULT_ROOT)
    ensures Parsed(text) == Parsed(root + "/" + text)
  {
    SplitTail(DEFAULT_ROOT);
    ComponentsRoundTrip(DEFAULT_ROOT);
    SplitAtSlash(root, text);
    UnderTheRoot(Texts(DEFAULT_ROOT), Split(text), ParseComponent);
  }

  /** A relative path means what it means under the default root. */
  lemma RelativeMeans(text: string)
    requires Relative(text)
    ensures Parsed(text) == Parsed("m/44'/60'/0'/0" + "/" + text)
  {
    RootTail();
    UnderThePath("m/44'/60'/0'/0", text);
  }

  // ----- white space -----

  predicate Blank(s: string) {
    forall i :: 0 <= i < |s| ==> IsSpace(s[i])
  }

  lemma {:induction false} LeftBlanks(u: string, s: string)
    requires Blank(u)
    ensures TrimLeft(u + s) == TrimLeft(s)
    decreases |u|
  {
    if u == "" {
      assert u + s == s;
    } else {
      LeftBlanks(u[1..], s);
      assert (u + s)[1..] == u[1..] + s;
    }
  }

  lemma {:induction false} RightBlanks(s: string, v: string)
    requires Blank(v)
    ensures TrimRight(s + v) == TrimRight(s)
    decreases |v|
  {
    if v == "" {
      assert s + v == s;
    } else {
      RightBlanks(s, v[..|v| - 1]);
      assert (s + v)[..|s + v| - 1] == s + v[..|v| - 1];
    }
  }

  lemma {:induction false} TrimLeftKeepsEnd(s: string, v: string)
    ensures TrimLeft(s) != "" ==> TrimLeft(s + v) == TrimLeft(s) + v
    ensures TrimLeft(s) == "" <==> Blank(s)
    decreases |s|
  {
    if s != "" && IsSpace(s[0]) {
      TrimLeftKeepsEnd(s[1..], v);
      assert (s + v)[1..] == s[1..] + v;
      assert s == [s[0]] + s[1..];
    } else {
      assert s != "" ==> (s + v)[0] == s[0];
    }
  }

  /** White space around a text does not matter. */
  lemma TrimBlanks(u: string, s: string, v: string)
    requires Blank(u) && Blank(v)
    ensures TrimSpace(u + s + v) == TrimSpace(s)
  {
    assert u + s + v == u + (s + v);
    LeftBlanks(u, s + v);
    TrimLeftKeepsEnd(s, v);
    if TrimLeft(s) == "" {
      TrimLeftKeepsEnd(s + v, "");
    } else {
      RightBlanks(TrimLeft(s), v);
    }
  }

  /** A quote at the end stays at the end. */
  lemma TrimQuote(text: string)
    ensures TrimSpace(text + "'") == TrimLeft(text + "'") && TrimLeft(text + "'") == TrimLeft(text) + "'"
  {
    TrimLeftKeepsEnd(text, "'");
    if TrimLeft(text) == "" {
      LeftBlanks(text, "'");
    }
  }

  /** White space before a quote does not matter either. */
  lemma BlanksBeforeQuote(text: string, v: string)
    requires Blank(v)
    ensures TrimSpace(TrimLeft(text + v)) == TrimSpace(TrimLeft(text))
  {
    var spaced, plain := TrimLeft(text + v), TrimLeft(text);
    TrimLeftKeepsEnd(text, v);
    if plain == "" {
      TrimLeftKeepsEnd(text + v, "");
    } else {
      assert "" + plain + v == spaced;
      TrimBlanks("", plain, v);
    }
  }

  /** What a component with a quote stands for. */
  lemma QuotedMeaning(text: string, number: string -> Option<int>)
    ensures Component(text + "'", number) == InRange(number(TrimSpace(TrimLeft(text))), HARDENED)
  {
    TrimQuote(text);
    var plain := TrimLeft(text);
    assert (plain + "'")[..|plain|] == plain;
  }

  /** White space around a component, and before its quote, does not matter. */
  lemma ComponentBlanks(u: string, text: string, v: string)
    requires Blank(u) && Blank(v)
    ensures ParseComponent(u + text + v) == ParseComponent(text)
    ensures ParseComponent(text + v + "'") == ParseComponent(text + "'")
  {
    TrimBlanks(u, text, v);
    TrimmedAlike(u + text + v, text, ParseSigned);
    BlanksBeforeQuote(text, v);
    QuotedMeaning(text + v, ParseSigned);
    QuotedMeaning(text, ParseSigned);
  }

  /** Paths whose components are the same up to white space mean the same. */
  ghost predicate SameButBlanks(a: seq<string>, b: seq<string>) {
    |a| == |b| && forall i :: 0 <= i < |a| ==> TrimSpace(a[i]) == TrimSpace(b[i])
  }

  lemma {:induction false} EachSame(a: seq<string>, b: seq<string>, read: string -> Option<nat>)
    requires |a| == |b| && forall i :: 0 <= i < |a| ==> read(a[i]) == read(b[i])
    ensures Each(a, read) == Each(b, read)
    decreases |a|
  {
    if a == [] {
    } else {
      EachSame(a[..|a| - 1], b[..|b| - 1], read);
    }
  }

  lemma TrimmedAlike(a: string, b: string, number: string -> Option<int>)
    requires TrimSpace(a) == TrimSpace(b)
    ensures Component(a, number) == Component(b, number)
  {
  }

  lemma PathSame(a: seq<string>, b: seq<string>, read: string -> Option<nat>)
    requires a != [] && SameButBlanks(a, b) && forall i :: 0 <= i < |a| ==> read(a[i]) == read(b[i])
    ensures PathOf(a, read) == PathOf(b, read)
  {
    EachSame(a, b, read);
    EachSame(a[1..], b[1..], read);
  }

  lemma ParsedSame(a: string, b: string)
    requires SameButBlanks(Split(a), Split(b))
    ensures Parsed(a) == Parsed(b)
  {
    forall i | 0 <= i < |Split(a)|
      ensures ParseComponent(Split(a)[i]) == ParseComponent(Split(b)[i])
    {
      TrimmedAlike(Split(a)[i], Split(b)[i], ParseSigned);
    }
    PathSame(Split(a), Split(b), ParseComponent);
  }

  /** White space has no slashes: it goes to the first or the last component. */
  lemma {:induction false} SplitBlanksLeft(u: string, s: string)
    requires Blank(u)
    ensures Split(u + s) == [u + Split(s)[0]] + Split(s)[1..]
    decreases |u|
  {
    if u == "" {
      assert u + s == s && u + Split(s)[0] == Split(s)[0];
    } else {
      SplitBlanksLeft(u[1..], s);
      assert (u + s)[1..] == u[1..] + s;
      assert u[0] != '/';
      assert [u[0]] + (u[1..] + Split(s)[0]) == u + Split(s)[0];
    }
  }

  lemma {:induction false} SplitBlanksRight(s: string, v: string)
    requires Blank(v)
    ensures Split(s + v) == Extended(Split(s), v)
    decreases |s|
  {
    if s == "" {
      assert s + v == v && v + "" == v;
      SplitBlanksLeft(v, "");
    } else {
      SplitBlanksRight(s[1..], v);
      assert (s + v)[1..] == s[1..] + v;
      InFrontExtended(s[0], Split(s[1..]), v);
    }
  }

  /** The last part made longer. */
  ghost function Extended(parts: seq<string>, v: string): seq<string>
    requires parts != []
  {
    parts[..|parts| - 1] + [parts[|parts| - 1] + v]
  }

  lemma InFrontExtended(c: char, parts: seq<string>, v: string)
    requires parts != []
    ensures InFront(c, Extended(parts, v)) == Extended(InFront(c, parts), v)
  {
    if |parts| == 1 { assert [c] + (parts[0] + v) == [c] + parts[0] + v; }
  }

  /** Blanks at both ends of a list of components. */
  lemma BlanksAtEnds(u: string, parts: seq<string>, v: string, spaced: seq<string>)
    requires Blank(u) && Blank(v) && |parts| == |spaced| > 0
    requires |parts| == 1 ==> spaced[0] == u + parts[0] + v
    requires |parts| > 1 ==> spaced == [u + parts[0]] + parts[1..|parts| - 1] + [parts[|parts| - 1] + v]
    ensures SameButBlanks(spaced, parts)
  {
    var n := |parts| - 1;
    if n == 0 {
      TrimBlanks(u, parts[0], v);
    } else {
      assert u + parts[0] + "" == u + parts[0] && "" + parts[n] + v == parts[n] + v;
      TrimBlanks(u, parts[0], "");
      TrimBlanks("", parts[n], v);
    }
  }

  lemma BlanksAround(u: string, s: string, v: string)
    requires Blank(u) && Blank(v)
    ensures SameButBlanks(Split(u + s + v), Split(s))
  {
    SplitBlanksLeft(u, s + v);
    SplitBlanksRight(s, v);
    assert u + s + v == u + (s + v);
    var parts := Split(s);
    if |parts| == 1 { assert u + (parts[0] + v) == u + parts[0] + v; }
    BlanksAtEnds(u, parts, v, Split(u + s + v));
  }

  /** White space at the ends of a path, and around its slashes, does not matter. */
  lemma PathBlanks(u: string, a: string, v: string, w: string, b: string, x: string)
    requires Blank(u) && Blank(v) && Blank(w) && Blank(x)
    ensures Parsed(u + a + v) == Parsed(a)
    ensures Parsed((u + a + v) + "/" + (w + b + x)) == Parsed(a + "/" + b)
  {
    BlanksAround(u, a, v);
    BlanksAround(w, b, x);
    ParsedSame(u + a + v, a);
    SplitAtSlash(u + a + v, w + b + x);
    SplitAtSlash(a, b);
    ParsedSame((u + a + v) + "/" + (w + b + x), a + "/" + b);
  }

  // ----- numbers -----

  ghost function Power(base: nat, n: nat): nat {
    if n == 0 then 1 else base * Power(base, n - 1)
  }

  /** The number digits stand for by their places. */
  ghost function Positional(s: string, base: nat): nat {
    if s == "" then 0 else DigitValue(s[0]) * Power(base, |s| - 1) + Positional(s[1..], base)
  }

  ghost predicate Numeral(s: string, base: nat) {
    s != "" && forall i :: 0 <= i < |s| ==> DigitValue(s[i]) < base
  }

  lemma {:induction false} PositionalLast(s: string, base: nat)
    requires s != ""
    ensures Positional(s, base) == Positional(s[..|s| - 1], base) * base + DigitValue(s[|s| - 1])
  {
    if |s| == 1 {
      assert s[1..] == "" && s[..0] == "";
    } else {
      PositionalLast(s[1..], base);
      var front := s[..|s| - 1];
      assert s[1..][..|s| - 2] == front[1..];
      Places(DigitValue(s[0]), base, Power(base, |s| - 2), Positional(front[1..], base));
    }
  }

  lemma Places(d: nat, base: nat, power: nat, rest: nat)
    ensures d * (base * power) + rest * base == (d * power + rest) * base
  {
  }

  /** Up to base 16 the digits are the figures and then the letters, small or capital. */
  lemma DigitTable(c: char, d: nat)
    requires d < 16
    ensures DigitValue(c) == d <==> c in ["0123456789abcdef"[d], "0123456789ABCDEF"[d]]
  {
    var low, high := "0123456789abcdef"[d], "0123456789ABCDEF"[d];
    if d < 10 {
      assert low == high == '0' + d as char;
    } else {
      assert low == 'a' + (d - 10) as char && high == 'A' + (d - 10) as char;
    }
  }

  /** Digits are read exactly if all belong to the base, and as the number their places give. */
  lemma {:induction false} DigitsMeaning(s: string, base: nat)
    ensures ParseDigits(s, base) == if Numeral(s, base) then Some(Positional(s, base)) else None
  {
    if s == "" {
    } else {
      var front := s[..|s| - 1];
      PositionalLast(s, base);
      if front == "" {
      } else {
        DigitsMeaning(front, base);
        assert Numeral(s, base) <==> Numeral(front, base) && DigitValue(s[|s| - 1]) < base;
      }
    }
  }

  /** The digits as a number in the base, if they are such. */
  ghost function NumberIn(s: string, base: nat): Option<nat> {
    if Numeral(s, base) then Some(Positional(s, base)) else None
  }

  lemma HexMeaning(s: string)
    ensures ParseNumber("0x" + s) == NumberIn(s, 16) && ParseNumber("0X" + s) == NumberIn(s, 16)
  {
    assert ("0x" + s)[2..] == s && ("0X" + s)[2..] == s;
    DigitsMeaning(s, 16);
  }

  lemma BinaryMeaning(s: string)
    ensures ParseNumber("0b" + s) == NumberIn(s, 2) && ParseNumber("0B" + s) == NumberIn(s, 2)
  {
    assert ("0b" + s)[2..] == s && ("0B" + s)[2..] == s;
    DigitsMeaning(s, 2);
  }

  lemma OctalMeaning(s: string)
    requires s != "" && s[0] !in "xXbB"
    ensures ParseNumber("0" + s) == NumberIn(s, 8)
  {
    assert ("0" + s)[1..] == s;
    DigitsMeaning(s, 8);
  }

  lemma DecimalMeaning(s: string)
    requires s == "" || s[0] != '0' || s == "0"
    ensures ParseNumber(s) == NumberIn(s, 10)
  {
    DigitsMeaning(s, 10);
  }

  /** A plus sign changes nothing; a minus sign is refused, except before zero. */
  lemma SignMeaning(s: string)
    requires s != "" && s[0] !in "+-"
    ensures ParseSigned("+" + s) == ParseSigned(s)
    ensures ParseSigned("-" + s) == if ParseSigned(s).None? then None else Some(-ParseSigned(s).value)
    ensures ParseSigned(s).Some? ==> ParseSigned(s).value >= 0
  {
    assert ("+" + s)[1..] == s && ("-" + s)[1..] == s;
  }
}
