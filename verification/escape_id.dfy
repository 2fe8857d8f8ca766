/** Identifier escaping of the driver (`DatabaseDriver.escapeId`): every
    double quote is doubled, every other character is kept, in order. */
module EscapeIdent {
  import opened Common

  const Quote: char := '"'

  /** `id.replace(/"/g, '""')`. */
  function EscapeId(id: string): (r: string)
    ensures |r| == |id| + Count(id, Quote)
    ensures QuotesPaired(r)
    ensures Quote !in id ==> r == id
  {
    if |id| == 0 then ""
    else EscapePiece(id[0]) + EscapeId(id[1..])
  }

  /** What one input character becomes. */
  function EscapePiece(c: char): string
  {
    if c == Quote then [Quote, Quote] else [c]
  }

  /** Every quote of `r` is immediately followed by a second one that it pairs with:
      the strings `EscapeId` can produce. */
  predicate QuotesPaired(r: string)
  {
    if |r| == 0 then true
    else if r[0] == Quote then |r| >= 2 && r[1] == Quote && QuotesPaired(r[2..])
    else QuotesPaired(r[1..])
  }

  /** Collapses every `""` back to `"`; the inverse of `EscapeId`. */
  function UnescapeId(r: string): string
  {
    if |r| == 0 then ""
    else if r[0] == Quote && |r| >= 2 && r[1] == Quote then [Quote] + UnescapeId(r[2..])
    else [r[0]] + UnescapeId(r[1..])
  }

  /** Escaping works character by character: it distributes over concatenation. */
  lemma {:induction false} EscapeIdConcat(a: string, b: string)
    ensures EscapeId(a + b) == EscapeId(a) + EscapeId(b)
  {
    if |a| == 0 {
      assert a + b == b;
    } else {
      assert (a + b)[0] == a[0];
      assert (a + b)[1..] == a[1..] + b;
      EscapeIdConcat(a[1..], b);
    }
  }

  /** A quote becomes two quotes; any other character is kept as it is. */
  lemma EscapeIdChar(c: char)
    ensures c == Quote ==> EscapeId([c]) == "\"\""
    ensures c != Quote ==> EscapeId([c]) == [c]
  {
    assert [c][1..] == [];
  }

  /** Collapsing `""` recovers the original identifier. */
  lemma {:induction false} UnescapeEscape(id: string)
    ensures UnescapeId(EscapeId(id)) == id
  {
    if |id| > 0 {
      var r := EscapeId(id);
      var rest := EscapeId(id[1..]);
      if id[0] == Quote {
        assert r == [Quote, Quote] + rest;
        assert r[2..] == rest;
      } else {
        assert r == [id[0]] + rest;
        assert r[1..] == rest;
      }
      UnescapeEscape(id[1..]);
      assert id == [id[0]] + id[1..];
    }
  }

  /** Conversely, every string with paired quotes is the escaping of its collapse. */
  lemma {:induction false} EscapeUnescape(r: string)
    requires QuotesPaired(r)
    ensures EscapeId(UnescapeId(r)) == r
  {
    if |r| > 0 {
      var u := UnescapeId(r);
      if r[0] == Quote {
        assert u == [Quote] + UnescapeId(r[2..]);
        assert u[1..] == UnescapeId(r[2..]);
        EscapeUnescape(r[2..]);
        assert r == [Quote, Quote] + r[2..];
      } else {
        assert u == [r[0]] + UnescapeId(r[1..]);
        assert u[1..] == UnescapeId(r[1..]);
        EscapeUnescape(r[1..]);
        assert r == [r[0]] + r[1..];
      }
    }
  }

  /** Two different identifiers never escape to the same text. */
  lemma EscapeIdInjective(a: string, b: string)
    requires EscapeId(a) == EscapeId(b)
    ensures a == b
  {
    UnescapeEscape(a);
    UnescapeEscape(b);
  }
}
