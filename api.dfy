/**
 * The value types of the checker package: a check's recorded statuses, the `Checks` sort
 * order, a check's label, the result of one check invocation and the labels its summary line
 * carries.
 */
module Api {

  import Strings
  import opened Wrappers

  /** One entry of a check's status history (its timestamp is not part of this model). */
  datatype CheckStatus = CheckStatus(status: bool, invalid: bool, duration: int, message: string)

  /** A check as the result cache keeps it: its kind, its name and its status history, newest first. */
  datatype Check = Check(checkType: string, name: string, description: string, statuses: seq<CheckStatus>)

  /**
   * The output of one check invocation.  The configuration it points back to is represented
   * by the two strings the controller reads off it, its type and its endpoint; metrics are
   * not part of this model.
   */
  datatype CheckResult = CheckResult(
    pass: bool,
    invalid: bool,
    duration: int,
    description: string,
    message: string,
    checkType: string,
    endpoint: string)

  /** The order `Checks.Less` imposes: by type, and by name among checks of one type. */
  predicate CheckLess(a: Check, b: Check)
    ensures CheckLess(a, b) ==> a.checkType != b.checkType || a.name != b.name
    ensures a.checkType == b.checkType && |a.name| < |b.name| && a.name == b.name[..|a.name|] ==> CheckLess(a, b)
  {
    if a.checkType == b.checkType then Strings.Less(a.name, b.name)
    else Strings.Less(a.checkType, b.checkType)
  }

  /** `Checks.Len`. */
  function Len(c: array<Check>): (n: int)
    reads c
    ensures n == |c[..]|
  {
    c.Length
  }

  /** `Checks.Less(i, j)`: compares the checks at two positions of the slice. */
  function Less(c: array<Check>, i: int, j: int): (r: bool)
    requires 0 <= i < c.Length && 0 <= j < c.Length
    reads c
    ensures i == j ==> !r
    ensures r ==> !CheckLess(c[j], c[i])
    ensures c[i].checkType != c[j].checkType ==> (r <==> Strings.Less(c[i].checkType, c[j].checkType))
    ensures c[i].checkType == c[j].checkType ==> (r <==> Strings.Less(c[i].name, c[j].name))
  {
    CheckLessIrreflexive(c[i]);
    CheckLessAsymmetric(c[i], c[j]);
    CheckLess(c[i], c[j])
  }

  /** The sequence with the elements at `i` and `j` exchanged. */
  function Swapped<T>(s: seq<T>, i: nat, j: nat): (r: seq<T>)
    requires i < |s| && j < |s|
    ensures |r| == |s| && r[i] == s[j] && r[j] == s[i]
    ensures forall k :: 0 <= k < |s| && k != i && k != j ==> r[k] == s[k]
  {
    s[i := s[j]][j := s[i]]
  }

  /** `Checks.Swap(i, j)`: `c[i], c[j] = c[j], c[i]`. */
  method Swap(c: array<Check>, i: int, j: int)
    requires 0 <= i < c.Length && 0 <= j < c.Length
    modifies c
    ensures c[..] == Swapped(old(c[..]), i, j)
    ensures multiset(c[..]) == multiset(old(c[..]))
  {
    c[i], c[j] := c[j], c[i];
    SwappedPermutes(old(c[..]), i, j);
  }

  lemma SwappedPermutes<T>(s: seq<T>, i: nat, j: nat)
    requires i < |s| && j < |s|
    ensures multiset(Swapped(s, i, j)) == multiset(s)
  {
    var r := Swapped(s, i, j);
    if i != j {
      assert r == s[i := s[j]][j := s[i]];
      assert multiset(s[i := s[j]]) == multiset(s) - multiset{s[i]} + multiset{s[j]};
    } else {
      assert r == s;
    }
  }

  /** Swapping the same two positions twice restores the slice. */
  lemma SwappedTwice<T>(s: seq<T>, i: nat, j: nat)
    requires i < |s| && j < |s|
    ensures Swapped(Swapped(s, i, j), i, j) == s
  {
  }

  lemma CheckLessIrreflexive(a: Check)
    ensures !CheckLess(a, a)
  {
    Strings.LessIrreflexive(a.name);
  }

  lemma CheckLessAsymmetric(a: Check, b: Check)
    ensures CheckLess(a, b) ==> !CheckLess(b, a)
  {
    if a.checkType == b.checkType {
      Strings.LessAsymmetric(a.name, b.name);
    } else {
      Strings.LessAsymmetric(a.checkType, b.checkType);
    }
  }

  lemma CheckLessTransitive(a: Check, b: Check, c: Check)
    requires CheckLess(a, b) && CheckLess(b, c)
    ensures CheckLess(a, c)
  {
    if a.checkType == b.checkType && b.checkType == c.checkType {
      Strings.LessTransitive(a.name, b.name, c.name);
    } else if a.checkType == b.checkType {
      assert Strings.Less(a.checkType, c.checkType);
    } else if b.checkType == c.checkType {
      assert Strings.Less(a.checkType, c.checkType);
    } else {
      Strings.LessTransitive(a.checkType, b.checkType, c.checkType);
      if a.checkType == c.checkType {
        Strings.LessAsymmetric(a.checkType, b.checkType);
      }
    }
  }

  /** Type decides first; the name is consulted only between checks of one type. */
  lemma CheckLessTypeFirst(a: Check, b: Check)
    ensures a.checkType != b.checkType ==> (CheckLess(a, b) <==> Strings.Less(a.checkType, b.checkType))
    ensures a.checkType == b.checkType ==> (CheckLess(a, b) <==> Strings.Less(a.name, b.name))
  {
  }

  /** Between checks with different (type, name) keys exactly one of the two comparisons holds. */
  lemma CheckLessTrichotomy(a: Check, b: Check)
    requires (a.checkType, a.name) != (b.checkType, b.name)
    ensures CheckLess(a, b) != CheckLess(b, a)
  {
    if a.checkType == b.checkType {
      Strings.LessConnected(a.name, b.name);
      Strings.LessAsymmetric(a.name, b.name);
    } else {
      Strings.LessConnected(a.checkType, b.checkType);
      Strings.LessAsymmetric(a.checkType, b.checkType);
    }
  }

  /** `Check.ToString`: type and name joined by `;`. */
  function ToString(c: Check): (r: string)
    ensures |r| == |c.checkType| + 1 + |c.name|
    ensures r[..|c.checkType|] == c.checkType && r[|c.checkType|] == ';' && r[|c.checkType| + 1..] == c.name
  {
    c.checkType + ";" + c.name
  }

  /** A label splits back into the type and the name whenever the type holds no `;`. */
  lemma ToStringSplits(c: Check)
    requires ';' !in c.checkType
    ensures Strings.SplitFirst(ToString(c), ';') == Some((c.checkType, c.name))
  {
    Strings.SplitFirstOfJoin(c.checkType, ';', c.name);
  }

  /** The two bracketed labels of a result's summary line. */
  datatype Labels = Labels(verdict: string, validity: string)

  /** The labels `CheckResult.String` selects (colours and the rest of the line are not modelled). */
  function ResultLabels(r: CheckResult): (l: Labels)
    ensures l.verdict == "PASS" || l.verdict == "FAIL"
    ensures l.validity == "VALID" || l.validity == "INVALID"
  {
    if r.pass then Labels("PASS", "VALID")
    else if r.invalid then Labels("FAIL", "INVALID")
    else Labels("FAIL", "VALID")
  }

  /** The labels say whether the check passed, and for a failure whether it was invalid. */
  lemma ResultLabelsMeaning(r: CheckResult)
    ensures ResultLabels(r).verdict == "PASS" <==> r.pass
    ensures ResultLabels(r).validity == "INVALID" <==> !r.pass && r.invalid
    ensures r.pass ==> ResultLabels(r) == Labels("PASS", "VALID")
    ensures !r.pass && r.invalid ==> ResultLabels(r) == Labels("FAIL", "INVALID")
    ensures !r.pass && !r.invalid ==> ResultLabels(r) == Labels("FAIL", "VALID")
  {
    assert "PASS" != "FAIL" by { assert "PASS"[0] != "FAIL"[0]; }
    assert "VALID" != "INVALID" by { assert |"VALID"| != |"INVALID"|; }
  }
}
