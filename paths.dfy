/** `os.path.join` and `os.path.split` as the POSIX implementation of
    Python's `os.path` defines them, on a single separator character. */
module PosixPath {

  type Path = string

  const Sep: char := '/'

  predicate HasNoSep(s: string) { forall i :: 0 <= i < |s| ==> s[i] != Sep }

  predicate EndsWithSep(s: string) { |s| > 0 && s[|s| - 1] == Sep }

  /** `os.path.join(a, b)`: an absolute `b` replaces `a`; otherwise one
      separator is put between them unless `a` is empty or already ends in one. */
  function Join(a: Path, b: Path): Path
  {
    if |b| > 0 && b[0] == Sep then b
    else if a == "" || EndsWithSep(a) then a + b
    else a + [Sep] + b
  }

  /** The length of `p` up to and including its last separator (0 if it has none). */
  function TailStart(p: Path): (i: nat)
    ensures i <= |p|
  {
    if p == [] then 0
    else if p[|p| - 1] == Sep then |p|
    else TailStart(p[..|p| - 1])
  }

  /** What follows the last separator contains none. */
  lemma {:induction false} TailStartFacts(p: Path)
    ensures var i := TailStart(p);
      (i > 0 ==> p[i - 1] == Sep) && HasNoSep(p[i..])
    decreases |p|
  {
    if p != [] && p[|p| - 1] != Sep {
      var q := p[..|p| - 1];
      TailStartFacts(q);
      var i := TailStart(q);
      assert p[i..] == q[i..] + [p[|p| - 1]];
    }
  }

  /** `s.rstrip(Sep)`. */
  function RStripSep(s: string): (r: string)
    ensures |r| <= |s|
  {
    if EndsWithSep(s) then RStripSep(s[..|s| - 1]) else s
  }

  /** Stripping removes a run of trailing separators and nothing else. */
  lemma {:induction false} RStripSepFacts(s: string)
    ensures var r := RStripSep(s);
      && r == s[..|r|] && !EndsWithSep(r)
      && forall i :: |r| <= i < |s| ==> s[i] == Sep
    decreases |s|
  {
    if EndsWithSep(s) {
      RStripSepFacts(s[..|s| - 1]);
    }
  }

  /** `os.path.split(p)`: everything after the last separator is the tail;
      the head keeps its trailing separators only when it consists of nothing else. */
  function Split(p: Path): (Path, Path)
  {
    var i := TailStart(p);
    var head := p[..i];
    (if RStripSep(head) == "" then head else RStripSep(head), p[i..])
  }

  /** The tail of a split is the last component: a suffix of the path with no separator. */
  lemma SplitTail(p: Path)
    ensures var tail := Split(p).1;
      HasNoSep(tail) && |tail| <= |p| && p[|p| - |tail|..] == tail
  {
    TailStartFacts(p);
  }

  lemma {:induction false} TailStartAppend(a: Path, x: string)
    requires HasNoSep(x)
    ensures TailStart(a + x) == TailStart(a)
    decreases |x|
  {
    if x != [] {
      assert (a + x)[..|a + x| - 1] == a + x[..|x| - 1];
      TailStartAppend(a, x[..|x| - 1]);
    } else {
      assert a + x == a;
    }
  }

  /** Splitting a joined path gives back its two parts, when the last
      part is a single component and the directory does not end in a separator. */
  lemma SplitJoin(dir: Path, name: string)
    requires HasNoSep(name) && !EndsWithSep(dir)
    ensures Split(Join(dir, name)) == (dir, name)
  {
    if dir == "" {
      TailStartAppend("", name);
      assert Join(dir, name) == "" + name;
    } else {
      var p := Join(dir, name);
      assert p == (dir + [Sep]) + name;
      TailStartAppend(dir + [Sep], name);
      assert TailStart(dir + [Sep]) == |dir| + 1;
      assert p[..|dir| + 1] == dir + [Sep];
      assert (dir + [Sep])[..|dir|] == dir;
      assert RStripSep(dir + [Sep]) == RStripSep(dir) == dir;
      assert p[|dir| + 1..] == name;
    }
  }

  /** A join whose last part is a non-empty single component ends with that
      component and so does not end in a separator. */
  lemma JoinEndsWith(a: Path, b: string)
    requires b != "" && HasNoSep(b)
    ensures var p := Join(a, b);
      |p| >= |b| && p[|p| - |b|..] == b && !EndsWithSep(p)
  {
  }

  /** The last component of a join is its last part, when that is one non-empty component. */
  lemma JoinTail(base: Path, n: string)
    requires n != "" && HasNoSep(n)
    ensures Split(Join(base, n)).1 == n
  {
    var p := Join(base, n);
    if base == "" || EndsWithSep(base) {
      assert p == base + n;
      TailStartAppend(base, n);
      if base != "" {
        assert TailStart(base) == |base|;
      }
      assert p[|base|..] == n;
    } else {
      assert p == (base + [Sep]) + n;
      TailStartAppend(base + [Sep], n);
      assert p[|base| + 1..] == n;
    }
  }
}
