/** Truncation of a Slack message (notifications/slack.py). */
module Slack {

  datatype Block = Block(kind: string, body: string)

  predicate Removable(b: Block) {
    b.kind == "section" || b.kind == "context" || b.kind == "divider"
  }

  function Removables(blocks: seq<Block>): (n: nat)
    ensures n <= |blocks|
  {
    if blocks == [] then 0 else Removables(blocks[1..]) + if Removable(blocks[0]) then 1 else 0
  }

  /** Every block that may not be removed, and the first `k` of those that may, in order. */
  function Keep(blocks: seq<Block>, k: nat): seq<Block> {
    if blocks == [] then []
    else if !Removable(blocks[0]) then [blocks[0]] + Keep(blocks[1..], k)
    else if k > 0 then [blocks[0]] + Keep(blocks[1..], k - 1)
    else Keep(blocks[1..], 0)
  }

  /** The index of the last removable block, if any: the inner loop's backward scan. */
  method FindLastRemovable(blocks: seq<Block>) returns (found: bool, idx: nat)
    ensures found ==> idx < |blocks| && Removable(blocks[idx])
    ensures found ==> forall i :: idx < i < |blocks| ==> !Removable(blocks[i])
    ensures !found ==> forall i :: 0 <= i < |blocks| ==> !Removable(blocks[i])
  {
    found, idx := false, |blocks|;
    while idx > 0
      invariant idx <= |blocks|
      invariant forall i :: idx <= i < |blocks| ==> !Removable(blocks[i])
    {
      idx := idx - 1;
      if Removable(blocks[idx]) {
        found := true;
        return;
      }
    }
  }

  /** The caller's list of blocks. */
  class BlockList {
    var blocks: seq<Block>

    constructor (initial: seq<Block>)
      ensures blocks == initial
    {
      blocks := initial;
    }

    /** `_truncate_blocks`, for any way of measuring a message: the list itself is shortened, and
        returned. What it keeps is every block that may not be removed together with the longest prefix
        of the removable ones that makes the message fit; it stays too long only when no removable
        block is left. */
    method Truncate(length: seq<Block> -> nat, maxLen: nat) returns (list: BlockList, ghost k: nat)
      modifies this
      ensures list == this
      ensures k <= Removables(old(blocks)) && blocks == Keep(old(blocks), k)
      ensures forall j :: k < j <= Removables(old(blocks)) ==> length(Keep(old(blocks), j)) > maxLen
      ensures length(blocks) > maxLen ==> k == 0
    {
      ghost var all := blocks;
      list, k := this, Removables(all);
      KeepAll(all, k);
      while blocks != [] && length(blocks) > maxLen
        invariant k <= Removables(all) && blocks == Keep(all, k)
        invariant forall j :: k < j <= Removables(all) ==> length(Keep(all, j)) > maxLen
        decreases |blocks|
      {
        KeptRemovables(all, k);
        var found, idx := FindLastRemovable(blocks);
        if !found {
          NoneRemovable(blocks);
          break;
        }
        DropLast(blocks, idx);
        KeepTwice(all, k, k - 1);
        blocks, k := blocks[..idx] + blocks[idx + 1..], k - 1;
      }
      KeptRemovables(all, k);
    }
  }

  /** The blocks that may (or may not) be removed, in order. */
  function Only(blocks: seq<Block>, removable: bool): seq<Block> {
    if blocks == [] then []
    else if Removable(blocks[0]) == removable then [blocks[0]] + Only(blocks[1..], removable)
    else Only(blocks[1..], removable)
  }

  /** By kind: a header, or anything else but a section, context or divider, is always kept; and with
      none of the removable blocks left, nothing of those kinds is. */
  lemma {:induction false} KindsKept(blocks: seq<Block>, k: nat, b: Block)
    requires b in blocks
    ensures b.kind !in {"section", "context", "divider"} ==> b in Keep(blocks, k)
    ensures k == 0 && b.kind in {"section", "context", "divider"} ==> b !in Keep(blocks, k)
  {
    var k' := if Removable(blocks[0]) && k > 0 then k - 1 else k;
    if b in blocks[1..] {
      KindsKept(blocks[1..], k', b);
    } else {
      NothingNew(blocks[1..], k', b);
    }
  }

  lemma {:induction false} NothingNew(blocks: seq<Block>, k: nat, b: Block)
    requires b !in blocks
    ensures b !in Keep(blocks, k)
  {
    if blocks != [] {
      NothingNew(blocks[1..], if Removable(blocks[0]) && k > 0 then k - 1 else k, b);
    }
  }

  /** What is kept: all blocks that may not be removed, and the first `k` of the others. */
  lemma {:induction false} KeepKeeps(blocks: seq<Block>, k: nat)
    requires k <= Removables(blocks)
    ensures |Only(blocks, true)| == Removables(blocks)
    ensures Only(Keep(blocks, k), false) == Only(blocks, false)
    ensures Only(Keep(blocks, k), true) == Only(blocks, true)[..k]
  {
    if blocks != [] {
      var head, rest := blocks[0], blocks[1..];
      KeepKeeps(rest, if Removable(head) && k > 0 then k - 1 else k);
      assert forall tail: seq<Block> :: ([head] + tail)[1..] == tail;
    }
  }

  lemma {:induction false} KeepAll(blocks: seq<Block>, k: nat)
    requires Removables(blocks) <= k
    ensures Keep(blocks, k) == blocks
  {
    if blocks != [] {
      KeepAll(blocks[1..], if Removable(blocks[0]) then k - 1 else k);
    }
  }

  lemma {:induction false} KeptRemovables(blocks: seq<Block>, k: nat)
    requires k <= Removables(blocks)
    ensures Removables(Keep(blocks, k)) == k
  {
    if blocks != [] {
      var rest := blocks[1..];
      if !Removable(blocks[0]) {
        KeptRemovables(rest, k);
        assert Keep(blocks, k)[1..] == Keep(rest, k);
      } else if k > 0 {
        KeptRemovables(rest, k - 1);
        assert Keep(blocks, k)[1..] == Keep(rest, k - 1);
      } else {
        KeptRemovables(rest, 0);
      }
    }
  }

  lemma {:induction false} KeepTwice(blocks: seq<Block>, k: nat, j: nat)
    requires j <= k
    ensures Keep(Keep(blocks, k), j) == Keep(blocks, j)
  {
    if blocks != [] {
      var rest := blocks[1..];
      if !Removable(blocks[0]) {
        KeepTwice(rest, k, j);
        assert Keep(blocks, k)[1..] == Keep(rest, k);
      } else if k > 0 {
        assert Keep(blocks, k)[1..] == Keep(rest, k - 1);
        KeepTwice(rest, k - 1, if j > 0 then j - 1 else 0);
      } else {
        KeepTwice(rest, 0, 0);
      }
    }
  }

  lemma {:induction false} NoneRemovable(blocks: seq<Block>)
    requires forall i :: 0 <= i < |blocks| ==> !Removable(blocks[i])
    ensures Removables(blocks) == 0
  {
    if blocks != [] {
      NoneRemovable(blocks[1..]);
    }
  }

  /** Popping the last removable block keeps all the others. */
  lemma {:induction false} DropLast(blocks: seq<Block>, idx: nat)
    requires idx < |blocks| && Removable(blocks[idx])
    requires forall i :: idx < i < |blocks| ==> !Removable(blocks[i])
    ensures Removables(blocks) > 0
    ensures blocks[..idx] + blocks[idx + 1..] == Keep(blocks, Removables(blocks) - 1)
  {
    var rest := blocks[1..];
    if idx == 0 {
      NoneRemovable(rest);
      KeepAll(rest, 0);
    } else {
      DropLast(rest, idx - 1);
      assert blocks[..idx] == [blocks[0]] + rest[..idx - 1];
      assert blocks[idx + 1..] == rest[idx..];
    }
  }
}
