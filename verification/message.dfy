/**
 The notification text built from a run's change list
 (monitor_unisa.py:104-107): a fixed header, then one block per change,
 the URL, a line break, at most 400 snippet characters and a closing "...",
 in the order of the list.
 */
module Message {
  import opened Reconciliation
  import Text

  /** "⬆️ <b>Aggiornamenti rilevati</b>:" and a blank line (Telegram HTML markup). */
  const Header: string := "\U{2B06}\U{FE0F} <b>Aggiornamenti rilevati</b>:\n\n"

  /** The number of snippet characters a block shows. */
  const BlockSnippetLimit: nat := 400

  /** What closes every block. */
  const BlockEnd: string := "...\n\n"

  /** The block for one change: it starts with the URL and shows at most 400 snippet characters. */
  function Block(c: Change): (b: string)
    ensures |c.url| + 1 + |BlockEnd| <= |b| <= |c.url| + 1 + BlockSnippetLimit + |BlockEnd|
    ensures c.url <= b
  {
    c.url + "\n" + Text.Take(c.snippet, BlockSnippetLimit) + BlockEnd
  }

  /**
   The layout of a block: the URL, a line break, the first min(400, length)
   characters of the snippet, and the closing "..." with a blank line.
   */
  lemma BlockLayout(c: Change)
    ensures var b := Block(c);
            && b[..|c.url|] == c.url
            && b[|c.url|] == '\n'
            && b[|c.url| + 1..|b| - |BlockEnd|] <= c.snippet
            && |b| - |BlockEnd| - |c.url| - 1 == (if |c.snippet| <= BlockSnippetLimit then |c.snippet| else BlockSnippetLimit)
            && b[|b| - |BlockEnd|..] == BlockEnd
  {
    var shown := Text.Take(c.snippet, BlockSnippetLimit);
    var b := Block(c);
    assert b == c.url + "\n" + shown + BlockEnd;
    assert b[|c.url| + 1..|b| - |BlockEnd|] == shown;
  }

  /** The blocks of all changes, appended one after another. */
  function Blocks(changes: seq<Change>): string {
    if changes == [] then ""
    else Blocks(changes[..|changes| - 1]) + Block(changes[|changes| - 1])
  }

  /** The whole notification text. */
  function Compose(changes: seq<Change>): string {
    Header + Blocks(changes)
  }

  /** Where the block of change `i` starts in the message. */
  function Offset(changes: seq<Change>, i: nat): nat
    requires i <= |changes|
  {
    |Header| + |Blocks(changes[..i])|
  }

  /** The loop of `main` that appends one block per change. */
  method BuildMessage(changes: seq<Change>) returns (message: string)
    ensures message == Compose(changes)
    ensures Header <= message
  {
    message := Header;
    for k := 0 to |changes|
      invariant message == Header + Blocks(changes[..k])
    {
      assert changes[..k + 1][..k] == changes[..k];
      message := message + Block(changes[k]);
    }
    assert changes[..|changes|] == changes;
  }

  /** The blocks of a prefix of the changes are a prefix of all the blocks. */
  lemma {:induction false} BlocksOfPrefix(changes: seq<Change>, k: nat)
    requires k <= |changes|
    ensures Blocks(changes[..k]) <= Blocks(changes)
  {
    if k < |changes| {
      var init := changes[..|changes| - 1];
      assert changes[..k] == init[..k];
      BlocksOfPrefix(init, k);
    } else {
      assert changes[..k] == changes;
    }
  }

  /**
   The message starts with the header, holds the block of every change at
   its offset, the blocks follow the order of the change list without
   overlapping, and nothing follows the last block.
   */
  lemma {:induction false} MessageListsChangesInOrder(changes: seq<Change>)
    ensures Header <= Compose(changes)
    ensures forall i :: 0 <= i < |changes| ==>
              && Offset(changes, i) + |Block(changes[i])| <= |Compose(changes)|
              && Compose(changes)[Offset(changes, i)..Offset(changes, i) + |Block(changes[i])|] == Block(changes[i])
              && Compose(changes)[Offset(changes, i)..Offset(changes, i) + |changes[i].url|] == changes[i].url
    ensures forall i, j :: 0 <= i < j < |changes| ==> Offset(changes, i) + |Block(changes[i])| <= Offset(changes, j)
    ensures forall i :: 0 <= i < |changes| ==> Offset(changes, i) + |Block(changes[i])| == Offset(changes, i + 1)
    ensures |Compose(changes)| == Offset(changes, |changes|)
  {
    assert changes[..|changes|] == changes;
    forall i | 0 <= i < |changes|
      ensures Offset(changes, i) + |Block(changes[i])| <= |Compose(changes)|
      ensures Compose(changes)[Offset(changes, i)..Offset(changes, i) + |Block(changes[i])|] == Block(changes[i])
      ensures Compose(changes)[Offset(changes, i)..Offset(changes, i) + |changes[i].url|] == changes[i].url
      ensures Offset(changes, i) + |Block(changes[i])| == Offset(changes, i + 1)
    {
      BlockInPlace(changes, i);
    }
    BlocksInOrder(changes);
  }

  /** Each block ends at or before the start of every later block. */
  lemma {:induction false} BlocksInOrder(changes: seq<Change>)
    ensures forall i, j :: 0 <= i < j < |changes| ==> Offset(changes, i) + |Block(changes[i])| <= Offset(changes, j)
  {
    forall i, j | 0 <= i < j < |changes|
      ensures Offset(changes, i) + |Block(changes[i])| <= Offset(changes, j)
    {
      BlockInPlace(changes, i);
      OffsetsGrow(changes, i + 1, j);
    }
  }

  /** The block of change `i` sits at its offset. */
  lemma {:induction false} BlockInPlace(changes: seq<Change>, i: nat)
    requires i < |changes|
    ensures Offset(changes, i) + |Block(changes[i])| == Offset(changes, i + 1)
    ensures Offset(changes, i + 1) <= |Compose(changes)|
    ensures Compose(changes)[Offset(changes, i)..Offset(changes, i) + |Block(changes[i])|] == Block(changes[i])
    ensures Compose(changes)[Offset(changes, i)..Offset(changes, i) + |changes[i].url|] == changes[i].url
  {
    var upto := changes[..i + 1];
    assert upto[..i] == changes[..i];
    var b := Block(changes[i]);
    var before := Header + Blocks(changes[..i]);
    assert Header + Blocks(upto) == before + b;
    BlocksOfPrefix(changes, i + 1);
    InfixAt(before, b, Compose(changes));
    InfixAt(before, changes[i].url, Compose(changes));
  }

  /** When `x + y` is a prefix of `m`, `y` sits in `m` right after `x`; so does any prefix of `y`. */
  lemma InfixAt(x: string, y: string, m: string)
    requires x + y <= m
    ensures |x| + |y| <= |m|
    ensures m[|x|..|x| + |y|] == y
  {
    assert m[..|x| + |y|] == x + y;
  }

  /** Offsets never decrease along the change list. */
  lemma {:induction false} OffsetsGrow(changes: seq<Change>, i: nat, j: nat)
    requires i <= j <= |changes|
    ensures Offset(changes, i) <= Offset(changes, j)
    decreases j - i
  {
    if i < j {
      BlockInPlace(changes, i);
      OffsetsGrow(changes, i + 1, j);
    }
  }

}
