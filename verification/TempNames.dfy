/** The name of a publication's temporary: the destination's file name, the process and the sequence
    number of the draw, and `.tmp`. */
module TempNames {
  /** A path, as the directory it lies in and its file name, empty where it has none. */
  datatype Path = Path(dir: string, file: string)

  function Digit(n: nat): char
    requires n < 10
  {
    "0123456789"[n]
  }

  function Decimal(n: nat): string {
    if n < 10 then [Digit(n)] else Decimal(n / 10) + [Digit(n % 10)]
  }

  function TempName(destination: Path, pid: nat, sequence: nat): Path {
    Path(destination.dir, destination.file + "." + Decimal(pid) + "." + Decimal(sequence) + ".tmp")
  }

  lemma {:induction false} DecimalHasNoDot(n: nat)
    ensures Decimal(n) != [] && '.' !in Decimal(n)
  {
    if n >= 10 {
      DecimalHasNoDot(n / 10);
      assert Digit(n % 10) != '.';
    } else {
      assert Digit(n) != '.';
    }
  }

  lemma {:induction false} DecimalIsInjective(m: nat, n: nat)
    requires Decimal(m) == Decimal(n)
    ensures m == n
  {
    var s := Decimal(m);
    if m >= 10 {
      DecimalHasNoDot(m / 10);
    }
    if n >= 10 {
      DecimalHasNoDot(n / 10);
    }
    assert (m >= 10) == (n >= 10) == (|s| > 1);
    assert s[|s| - 1] == Digit(m % 10) == Digit(n % 10);
    if m >= 10 {
      assert s[..|s| - 1] == Decimal(m / 10) == Decimal(n / 10);
      DecimalIsInjective(m / 10, n / 10);
    }
  }

  /** A text cut at its last dot is cut one way. */
  lemma LastDotSplits(a: string, x: string, b: string, y: string)
    requires a + "." + x == b + "." + y && '.' !in x && '.' !in y
    ensures a == b && x == y
  {
    var s := a + "." + x;
    assert s == a + ("." + x) == b + ("." + y);
    assert s[|a|] == '.' && forall k :: |a| < k < |s| ==> s[k] == x[k - |a| - 1] != '.';
    assert s[|b|] == '.' && forall k :: |b| < k < |s| ==> s[k] == y[k - |b| - 1] != '.';
    assert a == s[..|a|] && b == s[..|b|];
    assert x == s[|a| + 1..] && y == s[|b| + 1..];
  }

  /** A temporary lies beside its destination, and its name begins with the destination's and is another. */
  lemma TempNameIsBeside(p: Path, pid: nat, sequence: nat)
    ensures var temp := TempName(p, pid, sequence);
      && temp.dir == p.dir && temp.file != p.file && p.file + "." <= temp.file
      && |temp.file| >= 4 && temp.file[|temp.file| - 4..] == ".tmp"
  {
    var temp, rest := TempName(p, pid, sequence), Decimal(pid) + "." + Decimal(sequence) + ".tmp";
    assert temp.file == p.file + "." + rest;
  }

  /** A temporary's name pins the destination, the process and the draw it was made for. */
  lemma TempNameIsInjective(p: Path, pid: nat, seq1: nat, q: Path, pid': nat, seq2: nat)
    requires TempName(p, pid, seq1) == TempName(q, pid', seq2)
    ensures p == q && pid == pid' && seq1 == seq2
  {
    var s, t := TempName(p, pid, seq1).file, TempName(q, pid', seq2).file;
    var a, b := p.file + "." + Decimal(pid), q.file + "." + Decimal(pid');
    var a', b' := a + "." + Decimal(seq1), b + "." + Decimal(seq2);
    assert s == a' + ".tmp" && t == b' + ".tmp";
    assert a' == s[..|s| - 4] && b' == t[..|t| - 4];
    DecimalHasNoDot(pid);
    DecimalHasNoDot(pid');
    DecimalHasNoDot(seq1);
    DecimalHasNoDot(seq2);
    LastDotSplits(a, Decimal(seq1), b, Decimal(seq2));
    LastDotSplits(p.file, Decimal(pid), q.file, Decimal(pid'));
    DecimalIsInjective(pid, pid');
    DecimalIsInjective(seq1, seq2);
  }
}
