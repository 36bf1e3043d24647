/** Collision resolution in a destination folder. The organizer keeps the
    file's own name when it is free; otherwise it tries `{stem}_{n}{ext}` for
    n = 1, 2, 3, ... and takes the first name nothing in the folder uses. The
    probe has no bound in the code; it stops because the folder holds finitely
    many names and the candidates are pairwise distinct. */
module Collision {
  import opened Strings
  import opened Paths

  /** The n-th alternative name, `f"{stem}_{n}{ext}"`. */
  function Candidate(stem: string, ext: string, n: nat): string {
    stem + "_" + NatToString(n) + ext
  }

  /** A candidate reads back as the stem, an underscore, the counter's digits
      and the extension. */
  lemma CandidateParts(stem: string, ext: string, n: nat)
    ensures var r := Candidate(stem, ext, n);
      && |r| > |stem| + 1 + |ext|
      && r[..|stem|] == stem && r[|stem|] == '_' && r[|r| - |ext|..] == ext
      && r[|stem| + 1..|r| - |ext|] == NatToString(n)
  {
    var r := Candidate(stem, ext, n);
    assert r[..|stem|] == stem;
    assert r[|r| - |ext|..] == ext;
    assert r[|stem| + 1..|r| - |ext|] == NatToString(n);
  }

  /** Different counters give different candidate names. */
  lemma CandidateInjective(stem: string, ext: string, m: nat, n: nat)
    requires Candidate(stem, ext, m) == Candidate(stem, ext, n)
    ensures m == n
  {
    CandidateParts(stem, ext, m);
    CandidateParts(stem, ext, n);
    NatToStringInjective(m, n);
  }

  /** A candidate is never the plain name stem + ext it was derived from. */
  lemma CandidateIsNotOriginal(stem: string, ext: string, n: nat)
    ensures Candidate(stem, ext, n) != stem + ext
  {
    assert |Candidate(stem, ext, n)| > |stem + ext|;
  }

  /** The candidates with counter below n. */
  function Seen(stem: string, ext: string, n: nat): set<string> {
    if n == 0 then {} else Seen(stem, ext, n - 1) + {Candidate(stem, ext, n - 1)}
  }

  /** No candidate from counter n upwards has been seen before n. */
  lemma {:induction false} NotYetSeen(stem: string, ext: string, n: nat, k: nat)
    requires n <= k
    ensures Candidate(stem, ext, k) !in Seen(stem, ext, n)
  {
    if n > 0 {
      NotYetSeen(stem, ext, n - 1, k);
      if Candidate(stem, ext, k) == Candidate(stem, ext, n - 1) {
        CandidateInjective(stem, ext, k, n - 1);
      }
    }
  }

  /** Each probe step shrinks the set of taken names not yet seen by one
      exactly when the probed candidate is taken. */
  lemma SeenStep(taken: set<string>, stem: string, ext: string, n: nat)
    ensures |taken - Seen(stem, ext, n + 1)| + (if Candidate(stem, ext, n) in taken then 1 else 0)
            == |taken - Seen(stem, ext, n)|
  {
    var c := Candidate(stem, ext, n);
    var before := taken - Seen(stem, ext, n);
    assert taken - Seen(stem, ext, n + 1) == before - {c};
    if c in taken {
      NotYetSeen(stem, ext, n, n);
      assert before == (before - {c}) + {c};
    } else {
      assert before - {c} == before;
    }
  }

  /** k is the least counter of at least 1 whose candidate is free. */
  ghost predicate LeastFree(taken: set<string>, stem: string, ext: string, k: nat) {
    && 1 <= k
    && Candidate(stem, ext, k) !in taken
    && forall i :: 1 <= i < k ==> Candidate(stem, ext, i) in taken
  }

  /** There is only one least free counter. */
  lemma LeastFreeUnique(taken: set<string>, stem: string, ext: string, k1: nat, k2: nat)
    requires LeastFree(taken, stem, ext, k1) && LeastFree(taken, stem, ext, k2)
    ensures k1 == k2
  {
  }

  /** Probes counters n, n + 1, ... and returns the first whose candidate is free. */
  function Probe(taken: set<string>, stem: string, ext: string, n: nat): (k: nat)
    ensures n <= k
    ensures Candidate(stem, ext, k) !in taken
    ensures forall i :: n <= i < k ==> Candidate(stem, ext, i) in taken
    decreases |taken - Seen(stem, ext, n)|
  {
    if Candidate(stem, ext, n) !in taken then n
    else
      SeenStep(taken, stem, ext, n);
      Probe(taken, stem, ext, n + 1)
  }

  /** The name the file is stored under: its own name when free, otherwise
      the candidate with the least free counter. */
  function ResolveName(taken: set<string>, filename: string): (r: string)
    ensures r !in taken
    ensures filename !in taken ==> r == filename
    ensures filename in taken ==>
      var s := SplitExt(filename);
      exists k :: LeastFree(taken, s.stem, s.ext, k) && r == Candidate(s.stem, s.ext, k)
  {
    if filename !in taken then filename
    else
      var s := SplitExt(filename);
      var k := Probe(taken, s.stem, s.ext, 1);
      assert LeastFree(taken, s.stem, s.ext, k);
      Candidate(s.stem, s.ext, k)
  }

  /** The destination-name loop as the organizer runs it: the counter starts at
      1, the name is re-checked before every step, and the last name tried is
      the one kept. */
  method FindFreeName(taken: set<string>, filename: string) returns (dest: string)
    ensures dest == ResolveName(taken, filename)
  {
    dest := filename;
    if dest in taken {
      var s := SplitExt(filename);
      var counter: nat := 1;
      while dest in taken
        invariant 1 <= counter
        invariant counter == 1 ==> dest == filename
        invariant 1 < counter ==> dest == Candidate(s.stem, s.ext, counter - 1)
        invariant forall i :: 1 <= i < counter - 1 ==> Candidate(s.stem, s.ext, i) in taken
        decreases |taken - Seen(s.stem, s.ext, counter)| + (if dest in taken then 1 else 0)
      {
        SeenStep(taken, s.stem, s.ext, counter);
        dest := Candidate(s.stem, s.ext, counter);
        counter := counter + 1;
      }
      assert LeastFree(taken, s.stem, s.ext, counter - 1);
      ghost var k :| LeastFree(taken, s.stem, s.ext, k) && ResolveName(taken, filename) == Candidate(s.stem, s.ext, k);
      LeastFreeUnique(taken, s.stem, s.ext, k, counter - 1);
    }
  }

  /** With "a.txt" and "a_1.txt" taken, "a.txt" is stored as "a_2.txt". */
  lemma SecondCollision()
    ensures ResolveName({"a.txt", "a_1.txt"}, "a.txt") == "a_2.txt"
  {
    var f := "a.txt";
    assert f[2..] == "txt";
    RFindAt(f, '.', 1);
    SplitExtOfVisibleName(f);
    assert SplitExt(f) == Split("a", ".txt");
    assert Candidate("a", ".txt", 1) == "a_1.txt";
    assert Candidate("a", ".txt", 2) == "a_2.txt";
    assert LeastFree({"a.txt", "a_1.txt"}, "a", ".txt", 2);
    var k :| LeastFree({"a.txt", "a_1.txt"}, "a", ".txt", k)
      && ResolveName({"a.txt", "a_1.txt"}, f) == Candidate("a", ".txt", k);
    LeastFreeUnique({"a.txt", "a_1.txt"}, "a", ".txt", k, 2);
  }
}
