/** The default file name generator: a counter makes every name different, whatever the clock says. */
module FileNames {
  import opened Common
  import opened Decimals

  // ----- filepath.Join on a system with slashes -----

  /** The elements of a path between its slashes. */
  function Split(p: string): (r: seq<string>)
    ensures r != []
  {
    if p == "" then [""]
    else
      var r, c := Split(p[..|p| - 1]), p[|p| - 1];
      if c == '/' then r + [""] else r[..|r| - 1] + [r[|r| - 1] + [c]]
  }

  /** What one element of a path does to the elements kept so far. */
  function Walk(kept: seq<string>, e: string, rooted: bool): seq<string> {
    if e == "" || e == "." then kept
    else if e == ".." then
      if kept != [] && kept[|kept| - 1] != ".." then kept[..|kept| - 1]
      else if rooted then kept
      else kept + [".."]
    else kept + [e]
  }

  function WalkAll(elements: seq<string>, rooted: bool): seq<string> {
    if elements == [] then []
    else Walk(WalkAll(elements[..|elements| - 1], rooted), elements[|elements| - 1], rooted)
  }

  function WithSlashes(elements: seq<string>): string {
    if elements == [] then ""
    else if |elements| == 1 then elements[0]
    else WithSlashes(elements[..|elements| - 1]) + "/" + elements[|elements| - 1]
  }

  /** filepath.Clean */
  function Clean(p: string): string {
    var rooted := p != "" && p[0] == '/';
    var body := WithSlashes(WalkAll(Split(p), rooted));
    if rooted then "/" + body else if body == "" then "." else body
  }

  /** filepath.Join of two elements, of which the second is not empty. */
  function Join(base: string, name: string): string {
    Clean(if base == "" then name else base + "/" + name)
  }

  // ----- The generator -----

  function NameFor(base: string, prefix: string, clock: string, count: int): string {
    Join(base, prefix + clock + "-" + Printed(count) + ".har")
  }

  class TimestampFileGenerator {
    const basePath: string
    const prefix: string
    var inc: int64

    constructor (basePath: string, prefix: string)
      ensures this.basePath == basePath && this.prefix == prefix && inc == 0
    {
      this.basePath, this.prefix, inc := basePath, prefix, 0;
    }

    /** clock is the time as the layout prints it. */
    method Next(clock: string) returns (name: string)
      modifies this
      ensures inc == WrapI64(old(inc) + 1)
      ensures name == NameFor(basePath, prefix, clock, inc)
    {
      inc := WrapI64(inc + 1);
      name := Join(basePath, prefix + clock + "-" + Printed(inc) + ".har");
    }
  }

  // ----- Names do not repeat -----

  lemma SplitChar(p: string, c: char)
    requires c != '/'
    ensures var r := Split(p); Split(p + [c]) == r[..|r| - 1] + [r[|r| - 1] + [c]]
  {
    var q := p + [c];
    assert q[..|q| - 1] == p && q[|q| - 1] == c;
  }

  /** Text without slashes extends the last element of a path. */
  lemma {:induction false} SplitExtends(p: string, t: string)
    requires '/' !in t
    ensures var r := Split(p); Split(p + t) == r[..|r| - 1] + [r[|r| - 1] + t]
  {
    if t == "" {
      assert p + t == p;
      LastStays(Split(p));
    } else {
      var k := |t| - 1;
      SplitExtends(p, t[..k]);
      SplitChar(p + t[..k], t[k]);
      assert p + t[..k] + [t[k]] == p + t;
      ReplaceLast(Split(p), t[..k], t[k], t);
    }
  }

  lemma LastStays(r: seq<string>)
    requires r != []
    ensures r[..|r| - 1] + [r[|r| - 1] + ""] == r
  {
    assert r[|r| - 1] + "" == r[|r| - 1];
  }

  lemma ReplaceLast(r: seq<string>, front: string, c: char, t: string)
    requires r != [] && t == front + [c]
    ensures var x := r[..|r| - 1] + [r[|r| - 1] + front];
            x[..|x| - 1] + [x[|x| - 1] + [c]] == r[..|r| - 1] + [r[|r| - 1] + t]
  {
    assert r[|r| - 1] + front + [c] == r[|r| - 1] + t;
  }

  /** s ends with t. */
  predicate EndsWith(s: string, t: string) {
    |t| <= |s| && s[|s| - |t|..] == t
  }

  lemma EndsWithMore(x: string, e: string, t: string)
    requires EndsWith(e, t)
    ensures EndsWith(x + e, t)
  {
    assert (x + e)[|x + e| - |t|..] == e[|e| - |t|..];
  }

  lemma {:induction false} WithSlashesEnds(elements: seq<string>, e: string, t: string)
    requires EndsWith(e, t)
    ensures EndsWith(WithSlashes(elements + [e]), t)
  {
    var all := elements + [e];
    if elements != [] {
      assert all[..|all| - 1] == elements;
      EndsWithMore(WithSlashes(elements) + "/", e, t);
    }
  }

  /** Cleaning a path keeps a last element that is a plain name. */
  lemma CleanKeepsLast(p: string, tail: string)
    requires |tail| > 2
    requires var r := Split(p); EndsWith(r[|r| - 1], tail)
    ensures EndsWith(Clean(p), tail)
  {
    var r := Split(p);
    var e := r[|r| - 1];
    assert |e| > 2;
    var rooted := p != "" && p[0] == '/';
    var kept := WalkAll(r[..|r| - 1], rooted);
    assert WalkAll(r, rooted) == kept + [e];
    WithSlashesEnds(kept, e, tail);
    EndsWithMore("/", WithSlashes(kept + [e]), tail);
  }

  predicate Numbered(name: string, count: nat) {
    EndsWith(name, "-" + Decimal(count) + ".har")
  }

  /** Every name ends with a dash, the counter and the extension, whatever base, prefix and clock contain. */
  lemma NameEnds(base: string, prefix: string, clock: string, count: nat)
    ensures Numbered(NameFor(base, prefix, clock, count), count)
  {
    var tail := "-" + Decimal(count) + ".har";
    var name := prefix + clock + "-" + Printed(count) + ".har";
    var front := if base == "" then prefix + clock else base + "/" + prefix + clock;
    assert (if base == "" then name else base + "/" + name) == front + tail;
    assert '/' !in tail;
    SplitExtends(front, tail);
    CleanKeepsLast(front + tail, tail);
  }

  lemma DashAndDigits(name: string, d: string)
    requires EndsWith(name, "-" + d + ".har")
    ensures var stem := name[..|name| - 4];
            |stem| > |d| && stem[|stem| - |d|..] == d && stem[|stem| - |d| - 1] == '-'
  {
    var tail := "-" + d + ".har";
    var k := |name| - |tail|;
    assert forall i | 0 <= i < |tail| :: name[k + i] == name[k..][i];
  }

  /** The counter in front of the extension can be told from the name alone. */
  lemma CounterIsKnown(name: string, m: nat, n: nat)
    requires Numbered(name, m) && Numbered(name, n)
    ensures m == n
  {
    var d, e := Decimal(m), Decimal(n);
    var stem := name[..|name| - 4];
    DashAndDigits(name, d);
    DashAndDigits(name, e);
    DecimalRoundTrip(m);
    DecimalRoundTrip(n);
  }

  /** The names of a generator's first calls, given what the clock showed at each. */
  function Names(base: string, prefix: string, clocks: seq<string>): seq<string> {
    seq(|clocks|, i requires 0 <= i < |clocks| => NameFor(base, prefix, clocks[i], WrapI64(i + 1)))
  }

  predicate Distinct(names: seq<string>) {
    forall i, j | 0 <= i < j < |names| :: names[i] != names[j]
  }

  lemma NameIsNumbered(base: string, prefix: string, clocks: seq<string>, i: nat)
    requires i < |clocks| < TWO_63
    ensures Numbered(Names(base, prefix, clocks)[i], i + 1)
  {
    assert WrapI64(i + 1) == i + 1;
    NameEnds(base, prefix, clocks[i], i + 1);
  }

  lemma NamesAreDistinct(base: string, prefix: string, clocks: seq<string>)
    requires |clocks| < TWO_63
    ensures Distinct(Names(base, prefix, clocks))
  {
    var names := Names(base, prefix, clocks);
    forall i, j | 0 <= i < j < |names| ensures names[i] != names[j] {
      NameIsNumbered(base, prefix, clocks, i);
      NameIsNumbered(base, prefix, clocks, j);
      if names[i] == names[j] {
        CounterIsKnown(names[i], i + 1, j + 1);
      }
    }
  }

  // ----- Where the files are -----

  /** An element of a path that stands for itself. */
  predicate Plain(e: string) {
    e != "" && e != "." && e != ".." && '/' !in e
  }

  predicate AllPlain(elements: seq<string>) {
    forall i | 0 <= i < |elements| :: Plain(elements[i])
  }

  lemma SplitSlash(p: string, e: string)
    requires '/' !in e
    ensures Split(p + "/" + e) == Split(p) + [e]
  {
    var q := p + "/";
    assert q[..|q| - 1] == p && q[|q| - 1] == '/';
    SplitExtends(q, e);
    assert Split(q) == Split(p) + [""];
    assert "" + e == e;
  }

  function Path(rooted: bool, elements: seq<string>): string {
    (if rooted then "/" else "") + WithSlashes(elements)
  }

  lemma PathMore(rooted: bool, elements: seq<string>, e: string)
    requires elements != []
    ensures Path(rooted, elements + [e]) == Path(rooted, elements) + "/" + e
  {
    assert (elements + [e])[..|elements|] == elements;
  }

  lemma SplitMore(rooted: bool, before: seq<string>, e: string, front: seq<string>)
    requires '/' !in e && before != [] && Split(Path(rooted, before)) == front + before
    ensures Split(Path(rooted, before + [e])) == front + (before + [e])
  {
    var p := Path(rooted, before);
    PathMore(rooted, before, e);
    SplitSlash(p, e);
    AppendLater(front, before, e);
  }

  lemma AppendLater<T>(a: seq<T>, b: seq<T>, e: T)
    ensures a + b + [e] == a + (b + [e])
  {
  }

  /** A path of plain elements has no others, but for an empty one in front of the root. */
  lemma {:induction false} SplitPath(rooted: bool, elements: seq<string>)
    requires AllPlain(elements) && elements != []
    ensures Split(Path(rooted, elements)) == (if rooted then [""] else []) + elements
  {
    var k := |elements| - 1;
    if k == 0 {
      FirstElement(rooted, elements[0]);
      assert elements == [elements[0]];
    } else {
      var before, e := elements[..k], elements[k];
      assert elements == before + [e] && Plain(e);
      SplitPath(rooted, before);
      SplitMore(rooted, before, e, if rooted then [""] else []);
    }
  }

  /** Walking keeps plain elements. */
  lemma {:induction false} WalkPlain(rooted: bool, elements: seq<string>)
    requires AllPlain(elements)
    ensures WalkAll((if rooted then [""] else []) + elements, rooted) == elements
  {
    var front: seq<string> := if rooted then [""] else [];
    if elements == [] {
      assert front + elements == front && (rooted ==> [""][..0] == []);
    } else {
      var k := |elements| - 1;
      WalkPlain(rooted, elements[..k]);
      var all := front + elements;
      assert all[..|all| - 1] == front + elements[..k] && all[|all| - 1] == elements[k];
      assert elements == elements[..k] + [elements[k]];
    }
  }

  lemma FirstElement(rooted: bool, e: string)
    requires Plain(e)
    ensures Split(Path(rooted, [e])) == if rooted then ["", e] else [e]
  {
    if rooted {
      SplitSlash("", e);
      assert "" + "/" + e == "/" + e;
    } else {
      SplitExtends("", e);
      assert "" + e == e;
    }
  }

  lemma CleanPath(rooted: bool, elements: seq<string>)
    requires AllPlain(elements) && elements != []
    ensures Clean(Path(rooted, elements)) == Path(rooted, elements)
  {
    SplitPath(rooted, elements);
    WalkPlain(rooted, elements);
    var p := Path(rooted, elements);
    if !rooted {
      StartsPlain(elements);
    }
  }

  lemma {:induction false} StartsPlain(elements: seq<string>)
    requires AllPlain(elements) && elements != []
    ensures WithSlashes(elements) != "" && WithSlashes(elements)[0] != '/'
  {
    if |elements| > 1 {
      StartsPlain(elements[..|elements| - 1]);
    }
  }

  /** A plain element and two dots after it cancel out; at the root two dots are nothing; one dot never is anything. */
  lemma DotsCancel(elements: seq<string>, e: string, rooted: bool)
    requires Plain(e)
    ensures WalkAll(elements + [e] + [".."], rooted) == WalkAll(elements, rooted)
    ensures WalkAll([".."], true) == [] && WalkAll([".."], false) == [".."]
    ensures WalkAll(elements + ["."], rooted) == WalkAll(elements, rooted) == WalkAll(elements + [""], rooted)
  {
    WalkMore(elements, e, rooted);
    WalkMore(elements + [e], "..", rooted);
    WalkMore(elements, ".", rooted);
    WalkMore(elements, "", rooted);
    WalkMore([], "..", rooted);
    assert [] + [".."] == [".."] && [".."][..0] == [];
  }

  lemma WalkMore(elements: seq<string>, e: string, rooted: bool)
    ensures WalkAll(elements + [e], rooted) == Walk(WalkAll(elements, rooted), e, rooted)
  {
    assert (elements + [e])[..|elements|] == elements;
  }

  /** Under a base path of plain elements the files are where one expects them. */
  lemma NameUnderBase(rooted: bool, elements: seq<string>, prefix: string, clock: string, count: nat)
    requires AllPlain(elements) && elements != [] && '/' !in prefix && '/' !in clock
    ensures var base := Path(rooted, elements);
            NameFor(base, prefix, clock, count) == base + "/" + prefix + clock + "-" + Decimal(count) + ".har"
  {
    var base, name := Path(rooted, elements), prefix + clock + "-" + Decimal(count) + ".har";
    PlainName(prefix, clock, count);
    PathMore(rooted, elements, name);
    CleanPath(rooted, elements + [name]);
    assert base != "" by {
      StartsPlain(elements);
    }
    assert base + "/" + name == base + "/" + prefix + clock + "-" + Decimal(count) + ".har";
  }

  lemma PlainName(prefix: string, clock: string, count: nat)
    requires '/' !in prefix && '/' !in clock
    ensures Plain(prefix + clock + "-" + Decimal(count) + ".har")
  {
    var name := prefix + clock + "-" + Decimal(count) + ".har";
    assert |name| > 4;
  }

  /** In the working directory, which is the default, a name is just that. */
  lemma NameInDirectory(base: string, prefix: string, clock: string, count: nat)
    requires base == "." || base == ""
    requires '/' !in prefix && '/' !in clock
    ensures NameFor(base, prefix, clock, count) == prefix + clock + "-" + Decimal(count) + ".har"
  {
    var name := prefix + clock + "-" + Decimal(count) + ".har";
    PlainName(prefix, clock, count);
    if base == "" {
      CleanPath(false, [name]);
      assert Path(false, [name]) == name;
    } else {
      SplitSlash(base, name);
      SplitExtends("", base);
      assert "" + base == base && Split(base) == ["."];
      assert [".", name][..1] == ["."] && ["."][..0] == [];
      assert Split(base + "/" + name) == [".", name];
      assert WalkAll(["."], false) == [] && WalkAll([".", name], false) == [name];
    }
  }
}
