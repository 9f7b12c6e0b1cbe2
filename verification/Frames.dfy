/**
  What a run that writes below one place leaves alone.
 */
module Frames {
  import opened Paths
  import opened Os

  /** m2 differs from m at or below dst only, except for new directories on the way to dst;
      nothing is deleted or changes its kind. */
  ghost predicate Keeps(m: Tree, m2: Tree, dst: Path) {
    && (forall p {:trigger Get(m2, p)} ::
          dst <= p || Get(m2, p) == Get(m, p) || (p < dst && p !in m && IsDir(m2, p)))
    && (forall p :: p in m ==> p in m2 && (m[p].Dir? <==> m2[p].Dir?))
    && WF(m2) && NoLinks(m2, dst)
  }

  lemma KeepsTrans(m: Tree, m1: Tree, m2: Tree, dst: Path)
    requires Keeps(m, m1, dst) && Keeps(m1, m2, dst)
    ensures Keeps(m, m2, dst)
  {
    forall p
      ensures dst <= p || Get(m2, p) == Get(m, p) || (p < dst && p !in m && IsDir(m2, p))
    {
      assert dst <= p || Get(m1, p) == Get(m, p) || (p < dst && p !in m && IsDir(m1, p));
      assert dst <= p || Get(m2, p) == Get(m1, p) || (p < dst && p !in m1 && IsDir(m2, p));
    }
  }

  lemma FileKeeps(m: Tree, dst: Path, f: Node)
    requires f.File? && WF(m) && NoLinks(m, dst) && AllReal(dst) && dst != []
    requires IsDir(m, Parent(dst)) && !IsDir(m, dst)
    ensures Keeps(m, m[dst := f], dst)
  {
    PutWF(m, dst, f);
  }

  lemma MadeKeeps(m: Tree, m1: Tree, dst: Path, perm: nat)
    requires WF(m1) && NoLinks(m, dst) && MadeDirs(m, m1, dst, perm)
    ensures Keeps(m, m1, dst)
  {
  }

  lemma NoLinksDown(m: Tree, dst: Path, name: string)
    requires NoLinks(m, dst)
    ensures NoLinks(m, dst + [name])
  {
    var d := dst + [name];
    forall q | q in m && (q <= d || d <= q)
      ensures !m[q].Link?
    {
      if q <= d && q != d {
        ParentPrefix(q, d);
        assert Parent(d) == dst;
      } else {
        assert dst == d[..|dst|] == q[..|dst|];
      }
    }
  }

  lemma DirKeepsWF(m: Tree, p: Path, perm: nat)
    requires WF(m) && IsDir(m, p)
    ensures WF(m[p := Dir(perm)])
  {
    var m2 := m[p := Dir(perm)];
    forall q | q in m2 && q != []
      ensures IsDir(m2, Parent(q))
    {
      assert IsDir(m, Parent(q));
    }
  }

  /** Outside the place d everything is as before, apart from new directories on the way to d. */
  ghost predicate Within(m: Tree, m2: Tree, d: Path) {
    forall p {:trigger Get(m2, p)} ::
      d <= p || Get(m2, p) == Get(m, p) || (p < d && p !in m && IsDir(m2, p))
  }

  ghost predicate NothingAt(m: Tree, d: Path) {
    forall p :: p in m ==> !(d <= p)
  }

  lemma AbsentBelow(m: Tree, d: Path)
    requires WF(m) && d !in m
    ensures NothingAt(m, d)
  {
    forall p | p in m
      ensures !(d <= p)
    {
      if d <= p {
        Ancestors(m, d, p);
      }
    }
  }
}
