/** Shared types of the out-of-order back end: rename tags, their ages, and bus records. */
module OooPackage {
  import opened Prelude

  const ROB_SIZE := 16

  /** A reorder-buffer index; it is also the rename tag of the instruction in that entry. */
  type Tag = t: nat | t < ROB_SIZE

  /** A register of the rename table: x0-x31 are 0-31, f0-f31 are 32-63. Register 0 reads as zero. */
  type Reg = r: nat | r < 64

  /** The tag of the i-th oldest entry when `head` is the oldest. */
  function TagAt(head: Tag, i: nat): Tag {
    (head + i) % ROB_SIZE
  }

  /** Age of a tag relative to the head, by wrap-around subtraction. */
  function Age(tag: Tag, head: Tag): (a: nat)
    ensures a < ROB_SIZE
  {
    (tag + ROB_SIZE - head) % ROB_SIZE
  }

  predicate Younger(tag: Tag, branch: Tag, head: Tag) {
    Age(tag, head) > Age(branch, head)
  }

  lemma TagAtZero(head: Tag)
    ensures TagAt(head, 0) == head
  {
  }

  lemma TagAtWraps(head: Tag, i: nat)
    ensures TagAt(head, i + ROB_SIZE) == TagAt(head, i)
  {
  }

  lemma AgeOfTagAt(head: Tag, i: nat)
    requires i < ROB_SIZE
    ensures Age(TagAt(head, i), head) == i
  {
  }

  lemma TagAtAge(tag: Tag, head: Tag)
    ensures TagAt(head, Age(tag, head)) == tag
  {
  }

  /** Retiring c entries makes every remaining tag c younger in number only. */
  lemma AgeAfterRetire(tag: Tag, head: Tag, c: nat)
    requires c <= Age(tag, head)
    ensures Age(tag, TagAt(head, c)) == Age(tag, head) - c
  {
  }

  lemma TagAtAfterRetire(head: Tag, c: nat, i: nat)
    ensures TagAt(TagAt(head, c), i) == TagAt(head, c + i)
  {
  }

  /** Inside a window no longer than the buffer, tags name entries without ambiguity. */
  lemma TagsDistinct(head: Tag, i: nat, j: nat)
    requires i < ROB_SIZE && j < ROB_SIZE && TagAt(head, i) == TagAt(head, j)
    ensures i == j
  {
    AgeOfTagAt(head, i);
    AgeOfTagAt(head, j);
  }

  /** A value broadcast on a common data bus. */
  datatype Cdb = Cdb(valid: bool, tag: Tag, value: Word)

  const NO_CDB := Cdb(false, 0, 0)
}
