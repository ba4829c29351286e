/** Zenoh key expressions, chunk by chunk: `*` stands for one chunk and `**` for any number of them. */
module KeyExpressions {

  predicate Wild(chunk: string) {
    chunk == "*" || chunk == "**"
  }

  /**
   * Whether every key of `key` is a key of `pattern`. A key without wild chunks stands for itself, so on such
   * keys this is plain matching.
   */
  predicate Includes(pattern: seq<string>, key: seq<string>)
    decreases |pattern| + |key|
  {
    if pattern == [] then key == []
    else if pattern[0] == "**" then
      Includes(pattern[1..], key) || (key != [] && Includes(pattern, key[1..]))
    else
      && key != []
      && (pattern[0] == key[0] || (pattern[0] == "*" && key[0] != "**"))
      && Includes(pattern[1..], key[1..])
  }

  predicate Literal(chunks: seq<string>) {
    forall i :: 0 <= i < |chunks| ==> !Wild(chunks[i])
  }

  lemma {:induction false} IncludesLiteralHead(head: seq<string>, pattern: seq<string>, key: seq<string>)
    requires Literal(head)
    ensures Includes(head + pattern, key) <==> head <= key && Includes(pattern, key[|head|..])
    decreases |head|
  {
    if head == [] {
      assert head + pattern == pattern;
      assert key[0..] == key;
    } else {
      assert (head + pattern)[1..] == head[1..] + pattern;
      if key != [] && key[0] == head[0] {
        IncludesLiteralHead(head[1..], pattern, key[1..]);
        assert key == [key[0]] + key[1..];
        assert head == [head[0]] + head[1..];
        if head[1..] <= key[1..] {
          assert key[1..][|head| - 1..] == key[|head|..];
        }
      }
    }
  }

  lemma {:induction false} AnyTail(key: seq<string>)
    ensures Includes(["**"], key)
    decreases |key|
  {
    if key == [] {
      assert Includes([], key);
    } else {
      AnyTail(key[1..]);
    }
  }

  /**
   * A literal head followed by the any-number wildcard includes exactly the keys below that head, the head itself
   * among them.
   */
  lemma IncludesBelow(head: seq<string>, key: seq<string>)
    requires Literal(head)
    ensures Includes(head + ["**"], key) <==> head <= key
  {
    IncludesLiteralHead(head, ["**"], key);
    if head <= key {
      AnyTail(key[|head|..]);
    }
  }

  lemma IncludesExactly(pattern: seq<string>, key: seq<string>)
    requires Literal(pattern)
    ensures Includes(pattern, key) <==> key == pattern
  {
    IncludesLiteralHead(pattern, [], key);
    assert pattern + [] == pattern;
    if pattern <= key && key[|pattern|..] == [] {
      assert key == pattern;
    }
  }

  lemma IncludesOneMore(head: seq<string>, key: seq<string>)
    requires Literal(head)
    ensures Includes(head + ["*"], key) <==> |key| == |head| + 1 && head <= key && key[|head|] != "**"
  {
    IncludesLiteralHead(head, ["*"], key);
    if head <= key {
      var rest := key[|head|..];
      assert Includes(["*"], rest) <==> |rest| == 1 && rest[0] != "**" by {
        if rest != [] {
          assert ["*"][1..] == [];
        }
      }
    }
  }

  /** Inclusion composes, so a wild request that is included reaches no key outside the pattern. */
  lemma {:induction false} IncludesTransitive(a: seq<string>, b: seq<string>, c: seq<string>)
    requires Includes(a, b) && Includes(b, c)
    ensures Includes(a, c)
    decreases |a| + |b| + |c|
  {
    if a == [] {
    } else if a[0] == "**" {
      if Includes(a[1..], b) {
        IncludesTransitive(a[1..], b, c);
      } else if b[0] == "**" {
        if Includes(b[1..], c) {
          IncludesTransitive(a, b[1..], c);
        } else {
          IncludesTransitive(a, b, c[1..]);
        }
      } else {
        IncludesTransitive(a, b[1..], c[1..]);
      }
    } else {
      IncludesTransitive(a[1..], b[1..], c[1..]);
    }
  }
}
