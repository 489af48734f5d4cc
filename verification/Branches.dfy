/** Branches of branch.py: their identifiers and their life cycle. */
module Branches {
  import opened JsonValues
  import opened Options
  import opened Tree

  /** The value of a branch. Chat contents are not modelled. The hint is text, or the list a reply
      gave for a reason. */
  datatype Branch = Branch(id: string, head: NodeId, seed: string, hint: Value, pivots: seq<nat>)

  // ---- identifiers ------------------------------------------------------------------

  function Digit(d: nat): char
    requires d < 10
  {
    "0123456789"[d]
  }

  function Decimal(n: nat): (s: string)
    ensures s != []
  {
    if n < 10 then [Digit(n)] else Decimal(n / 10) + [Digit(n % 10)]
  }

  predicate IsDigits(s: string) {
    s != [] && forall i :: 0 <= i < |s| ==> '0' <= s[i] <= '9'
  }

  function ParseDecimal(s: string): nat
    requires forall i :: 0 <= i < |s| ==> '0' <= s[i] <= '9'
  {
    if s == [] then 0 else 10 * ParseDecimal(s[..|s| - 1]) + (s[|s| - 1] as int - '0' as int)
  }

  /** `f"b{idx}"` */
  function BranchName(idx: nat): string {
    "b" + Decimal(idx)
  }

  /** `name.lstrip("b")` */
  function StripB(name: string): string {
    if name != [] && name[0] == 'b' then StripB(name[1..]) else name
  }

  /** The number the loop reads back from a branch identifier, if it reads one at all. */
  function BranchNumber(name: string): Option<nat> {
    var digits := StripB(name);
    if IsDigits(digits) then Some(ParseDecimal(digits)) else None
  }

  lemma {:induction false} DecimalRoundTrip(n: nat)
    ensures IsDigits(Decimal(n)) && ParseDecimal(Decimal(n)) == n
  {
    if n < 10 {
      assert Decimal(n)[..0] == [];
    } else {
      DecimalRoundTrip(n / 10);
      var s := Decimal(n);
      assert s[..|s| - 1] == Decimal(n / 10);
    }
  }

  /** Reading back a printed identifier gives the index it was printed from. */
  lemma BranchNumberOfName(n: nat)
    ensures BranchNumber(BranchName(n)) == Some(n)
  {
    DecimalRoundTrip(n);
    var name := BranchName(n);
    assert name[1..] == Decimal(n);
    assert '0' <= Decimal(n)[0] <= '9';
    assert StripB(name) == StripB(name[1..]) == Decimal(n);
  }

  lemma BranchNamesDiffer(m: nat, n: nat)
    requires m != n
    ensures BranchName(m) != BranchName(n)
  {
    BranchNumberOfName(m);
    BranchNumberOfName(n);
  }

  // ---- life cycle ---------------------------------------------------------------------

  /** Python's `a or b` on strings. */
  function OrElse(a: string, b: string): string {
    if a != "" then a else b
  }

  function MakeBranch(idx: nat, node: TreeNode, hint: string): Branch {
    Branch(BranchName(idx), node.id, OrElse(node.seed, "seed"), Text(hint), [])
  }

  /** `reset_branch_for_pivot` */
  function Pivoted(b: Branch, target: TreeNode, reason: Value, round: nat): Branch {
    Branch(b.id, target.id, OrElse(target.seed, b.seed), reason, b.pivots + [round])
  }

  function SpawnBranch(idx: nat, target: TreeNode, reason: Value, round: nat): Branch {
    Branch(BranchName(idx), target.id, OrElse(target.seed, "spawn"), reason, [round])
  }

  /** The branch objects themselves, whose fields the program updates in place. */
  class LiveBranch {
    const id: string
    var head: NodeId
    var seed: string
    var hint: Value
    var pivots: seq<nat>

    /** make_branch */
    constructor (idx: nat, node: TreeNode, hint: string)
      ensures View() == MakeBranch(idx, node, hint)
    {
      id, head, seed := BranchName(idx), node.id, OrElse(node.seed, "seed");
      this.hint, pivots := Text(hint), [];
    }

    constructor Spawn(idx: nat, target: TreeNode, reason: Value, round: nat)
      ensures View() == SpawnBranch(idx, target, reason, round)
    {
      id, head, seed := BranchName(idx), target.id, OrElse(target.seed, "spawn");
      hint, pivots := reason, [round];
    }

    function View(): Branch
      reads this
    {
      Branch(id, head, seed, hint, pivots)
    }

    method ResetForPivot(target: TreeNode, reason: Value, round: nat)
      modifies this
      ensures View() == Pivoted(old(View()), target, reason, round)
    {
      head := target.id;
      seed := OrElse(target.seed, seed);
      hint := reason;
      pivots := pivots + [round];
    }
  }

  function Views(bs: seq<LiveBranch>): (r: seq<Branch>)
    reads bs
    ensures |r| == |bs| && forall i :: 0 <= i < |bs| ==> r[i] == bs[i].View()
  {
    seq(|bs|, i requires 0 <= i < |bs| reads bs => bs[i].View())
  }

  /** No object stands in the list twice. */
  ghost predicate DistinctObjects(bs: seq<LiveBranch>) {
    forall i, j :: 0 <= i < j < |bs| ==> bs[i] != bs[j]
  }

  predicate HasId(bs: seq<Branch>, id: string) {
    exists b :: b in bs && b.id == id
  }

  ghost predicate DistinctIds(bs: seq<Branch>) {
    forall i, j :: 0 <= i < j < |bs| ==> bs[i].id != bs[j].id
  }

  lemma DistinctUnique(bs: seq<Branch>, b: Branch, c: Branch)
    requires DistinctIds(bs) && b in bs && c in bs && b.id == c.id
    ensures b == c
  {
  }

  lemma AppendDistinct(bs: seq<Branch>, b: Branch)
    requires DistinctIds(bs) && !HasId(bs, b.id)
    ensures DistinctIds(bs + [b])
  {
    assert forall i :: 0 <= i < |bs| ==> bs[i] in bs;
  }
}
