/** Types and folding every module of the model shares. */
module Common {

  datatype Option<+T> = None | Some(value: T)

  function FoldChar(c: char): char {
    if 'A' <= c <= 'Z' then (c as int - 'A' as int + 'a' as int) as char else c
  }

  /** A repository id as every map and list of the program keys it: by lower case. */
  function FoldRepoId(id: string): string {
    if id == "" then "" else [FoldChar(id[0])] + FoldRepoId(id[1..])
  }

  const Capitals := "ABCDEFGHIJKLMNOPQRSTUVWXYZ"
  const Smalls := "abcdefghijklmnopqrstuvwxyz"

  /** Two spellings of one letter, or one character. */
  ghost predicate SameLetter(c: char, d: char) {
    c == d || exists i :: 0 <= i < 26 && Cases(c, d, i)
  }

  predicate Cases(c: char, d: char, i: nat)
    requires i < 26
  {
    (c == Capitals[i] && d == Smalls[i]) || (c == Smalls[i] && d == Capitals[i])
  }

  lemma CapitalsAndSmalls(i: nat)
    requires i < 26
    ensures Capitals[i] as int == 'A' as int + i && Smalls[i] as int == 'a' as int + i
  {
  }

  lemma FoldedAlike(c: char, d: char)
    ensures FoldChar(c) == FoldChar(d) <==> SameLetter(c, d)
  {
    if i :| 0 <= i < 26 && Cases(c, d, i) {
      CapitalsAndSmalls(i);
    } else if c != d && FoldChar(c) == FoldChar(d) {
      FoldedApart(c, d);
    }
  }

  lemma FoldedApart(c: char, d: char)
    requires c != d && FoldChar(c) == FoldChar(d)
    ensures SameLetter(c, d)
  {
    var i := FoldChar(c) as int - 'a' as int;
    CapitalsAndSmalls(i);
    assert Cases(c, d, i);
  }

  /** Two ids fold alike exactly when they are one but for the case of their letters. */
  lemma {:induction false} FoldingIgnoresCase(a: string, b: string)
    ensures FoldRepoId(a) == FoldRepoId(b) <==>
            |a| == |b| && forall i :: 0 <= i < |a| ==> SameLetter(a[i], b[i])
  {
    hide SameLetter, FoldChar;
    if a != "" && b != "" {
      var x, y := a[1..], b[1..];
      FoldedAlike(a[0], b[0]);
      FoldingIgnoresCase(x, y);
      assert FoldRepoId(a)[0] == FoldChar(a[0]) && FoldRepoId(a)[1..] == FoldRepoId(x);
      assert FoldRepoId(b)[0] == FoldChar(b[0]) && FoldRepoId(b)[1..] == FoldRepoId(y);
      assert FoldRepoId(a) == [FoldChar(a[0])] + FoldRepoId(x) && FoldRepoId(b) == [FoldChar(b[0])] + FoldRepoId(y);
      assert forall i :: 0 <= i < |x| ==> x[i] == a[i + 1];
      assert forall i :: 0 <= i < |y| ==> y[i] == b[i + 1];
      assert forall i :: 0 < i < |a| ==> a[i] == x[i - 1];
      assert forall i :: 0 < i < |b| ==> b[i] == y[i - 1];
    }
  }
}
