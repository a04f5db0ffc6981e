/** The two scripts as they run in Redis, where a token is text, and the pipeline that
    sends a batch of them. */
module ReadModelStore {
  import opened Decimal
  import opened ProductStore
  import opened EffectivePrice
  import opened ProductEntries
  import opened ReadModel

  /** The chunk of one pipeline. */
  const CHUNK := 1_000

  /** `<epoch microseconds>:<category>`. */
  function TokenText(token: Token): string {
    Render(token.at) + ":" + token.category
  }

  /** Where the first colon is, or the length of the text. */
  function Colon(text: string): (at: nat)
    ensures at <= |text|
  {
    if text == [] || text[0] == ':' then 0 else 1 + Colon(text[1..])
  }

  lemma {:induction false} ColonAfter(left: string, right: string)
    requires forall k :: 0 <= k < |left| ==> left[k] != ':'
    ensures Colon(left + ":" + right) == |left|
    decreases |left|
  {
    if left != [] {
      ColonAfter(left[1..], right);
      assert (left + ":" + right)[1..] == left[1..] + ":" + right;
    }
  }

  /** A token reads back whatever its category is, colons included. */
  lemma TokenReadsBack(token: Token)
    ensures var text := TokenText(token);
            var colon := Colon(text);
            && colon < |text| && text[..colon] == Render(token.at) && Value(Render(token.at)) == token.at
            && text[colon + 1..] == token.category
  {
    var digits := Render(token.at);
    assert forall k :: 0 <= k < |digits| ==> IsDigit(digits[k]);
    ColonAfter(digits, token.category);
    ValueOfRender(token.at);
    var text := TokenText(token);
    assert text[..|digits|] == digits;
    assert text[|digits| + 1..] == token.category;
  }

  /** What a script answers: nothing when it applied, and the token that won when not. */
  function Reply(ix: Index, m: Message): Option<string> {
    if Refuses(ix, m) then Some(Render(ix.tokens[m.Id()].at)) else None
  }

  function Replies(ix: Index, ms: seq<Message>): seq<Option<string>> {
    if ms == [] then []
    else Replies(ix, ms[..|ms| - 1]) + [Reply(ApplyAll(ix, ms[..|ms| - 1]), ms[|ms| - 1])]
  }

  lemma {:induction false} ApplyConcat(ix: Index, left: seq<Message>, right: seq<Message>)
    ensures ApplyAll(ix, left + right) == ApplyAll(ApplyAll(ix, left), right)
    decreases |right|
  {
    if right == [] {
      assert left + right == left;
    } else {
      var init, last := right[..|right| - 1], right[|right| - 1];
      ApplyConcat(ix, left, init);
      assert (left + right)[..|left + right| - 1] == left + init;
    }
  }

  lemma AppliedNext(ix: Index, calls: seq<Message>, k: nat)
    requires k < |calls|
    ensures ApplyAll(ix, calls[..k + 1]) == Apply(ApplyAll(ix, calls[..k]), calls[k])
    ensures Replies(ix, calls[..k + 1]) == Replies(ix, calls[..k]) + [Reply(ApplyAll(ix, calls[..k]), calls[k])]
  {
    assert calls[..k + 1][..k] == calls[..k];
  }

  class Store {
    var tokens: map<nat, string>
    var entries: map<nat, ProductEntry>
    var scores: map<(string, nat), nat>
    var allProducts: map<nat, nat>
    var ready: bool
    ghost var Tokens: map<nat, Token>

    /** Every token is the text of what it means. */
    ghost predicate Valid()
      reads this
    {
      tokens.Keys == Tokens.Keys && forall id :: id in tokens ==> tokens[id] == TokenText(Tokens[id])
    }

    ghost function Contents(): Index
      reads this
    {
      Index(Tokens, entries, scores, allProducts)
    }

    constructor ()
      ensures Valid() && Contents() == EMPTY && !ready
    {
      tokens, entries, scores, allProducts, ready := map[], map[], map[], map[], false;
      Tokens := map[];
    }

    /** The head of both scripts: refused, with the token that won, or the category the
        product is leaving. */
    method ReadStored(id: nat, sourceReadAt: nat) returns (winner: Option<string>, wasCategory: string)
      requires Valid()
      ensures winner == if id in Tokens && sourceReadAt <= Tokens[id].at then Some(Render(Tokens[id].at)) else None
      ensures winner.None? ==> wasCategory == if id in Tokens then Tokens[id].category else ""
    {
      winner, wasCategory := None, "";
      if id in tokens {
        var token := tokens[id];
        TokenReadsBack(Tokens[id]);
        var colon := Colon(token);
        var stored := token[..colon];
        if Value(stored) >= sourceReadAt { return Some(stored), ""; }
        wasCategory := token[colon + 1..];
      }
    }

    method SetToken(id: nat, token: Token)
      requires Valid()
      modifies this`tokens, this`Tokens
      ensures Valid() && Tokens == old(Tokens)[id := token]
    {
      tokens := tokens[id := TokenText(token)];
      Tokens := Tokens[id := token];
    }

    method WriteScript(entry: ProductEntry, sourceReadAt: nat) returns (reply: Option<string>)
      requires Valid()
      modifies this`tokens, this`Tokens, this`entries, this`scores, this`allProducts
      ensures Valid() && Contents() == Apply(old(Contents()), Write(entry, sourceReadAt))
      ensures reply == Reply(old(Contents()), Write(entry, sourceReadAt))
    {
      var wasCategory: string;
      reply, wasCategory := ReadStored(entry.id, sourceReadAt);
      if reply.Some? { return; }
      if wasCategory != "" && wasCategory != entry.category {
        scores := scores - {(wasCategory, entry.id)};
      }
      SetToken(entry.id, Token(sourceReadAt, entry.category));
      entries := entries[entry.id := entry];
      scores := scores[(entry.category, entry.id) := entry.effectivePriceCents];
      allProducts := allProducts[entry.id := entry.effectivePriceCents];
    }

    method RemoveScript(id: nat, sourceReadAt: nat) returns (reply: Option<string>)
      requires Valid()
      modifies this`tokens, this`Tokens, this`entries, this`scores, this`allProducts
      ensures Valid() && Contents() == Apply(old(Contents()), Remove(id, sourceReadAt))
      ensures reply == Reply(old(Contents()), Remove(id, sourceReadAt))
    {
      var wasCategory: string;
      reply, wasCategory := ReadStored(id, sourceReadAt);
      if reply.Some? { return; }
      if wasCategory != "" {
        scores := scores - {(wasCategory, id)};
      }
      SetToken(id, Token(sourceReadAt, ""));
      entries := entries - {id};
      allProducts := allProducts - {id};
    }

    method Call(m: Message) returns (reply: Option<string>)
      requires Valid()
      modifies this`tokens, this`Tokens, this`entries, this`scores, this`allProducts
      ensures Valid() && Contents() == Apply(old(Contents()), m) && reply == Reply(old(Contents()), m)
    {
      match m
      case Write(entry, at) => reply := WriteScript(entry, at);
      case Remove(id, at) => reply := RemoveScript(id, at);
    }

    /** One pipeline: the calls of one chunk, and their replies after those of the chunks before. */
    method Pipeline(calls: seq<Message>, from: nat, upTo: nat, before: seq<Option<string>>, ghost ix: Index)
      returns (applied: seq<Option<string>>)
      requires from <= upTo <= |calls| && Valid() && Sent(ix, calls[..from], before)
      modifies this`tokens, this`Tokens, this`entries, this`scores, this`allProducts
      ensures Valid() && Sent(ix, calls[..upTo], applied)
    {
      applied := before;
      for k := from to upTo
        invariant Valid() && Sent(ix, calls[..k], applied)
      {
        applied := CallNext(calls, k, applied, ix);
      }
    }

    method CallNext(calls: seq<Message>, k: nat, before: seq<Option<string>>, ghost ix: Index) returns (applied: seq<Option<string>>)
      requires k < |calls| && Valid() && Sent(ix, calls[..k], before)
      modifies this`tokens, this`Tokens, this`entries, this`scores, this`allProducts
      ensures Valid() && Sent(ix, calls[..k + 1], applied)
    {
      AppliedNext(ix, calls, k);
      var reply := Call(calls[k]);
      applied := before + [reply];
    }

    /** A pipeline per chunk, and one reply per call in the order of the calls. */
    method AppliedAll(calls: seq<Message>) returns (applied: seq<Option<string>>)
      requires Valid()
      modifies this`tokens, this`Tokens, this`entries, this`scores, this`allProducts
      ensures Valid() && Contents() == ApplyAll(old(Contents()), calls)
      ensures applied == Replies(old(Contents()), calls)
    {
      ghost var ix := Contents();
      applied := [];
      var from := 0;
      assert calls[..0] == [];
      while from < |calls|
        invariant from <= |calls| && Valid() && Sent(ix, calls[..from], applied)
      {
        var upTo := if from + CHUNK < |calls| then from + CHUNK else |calls|;
        applied := Pipeline(calls, from, upTo, applied, ix);
        from := upTo;
      }
      assert calls[..|calls|] == calls;
    }

    /** Everything in `done` was called, and `applied` is what was answered. */
    ghost predicate Sent(ix: Index, done: seq<Message>, applied: seq<Option<string>>)
      reads this
    {
      Contents() == ApplyAll(ix, done) && applied == Replies(ix, done)
    }
  }
}
