/**
 * The XML input as the Go code sees it through encoding/xml: a stream of tokens
 * in which a `row` start element either decodes into its attribute list or fails
 * to decode, every other token is uninteresting, and a read error ends the stream.
 */
module XmlTokens {

  /** One attribute of a `row` element: its local name and its value. */
  datatype Attr = Attr(local: string, value: string)

  datatype Token =
    | RowStart(attrs: seq<Attr>)  // a `row` start element whose DecodeElement succeeded
    | BadRow                      // a `row` start element whose DecodeElement failed
    | OtherToken                  // any other token (other elements, text, comments, ...)
    | StreamError                 // Token() returned an error

  /** The tokens a `for { tok, err := dec.Token(); if err != nil { break } ... }` loop gets to see. */
  function TokensRead(toks: seq<Token>): (r: seq<Token>)
    ensures |r| <= |toks| && r == toks[..|r|]
    ensures forall k :: 0 <= k < |r| ==> !r[k].StreamError?
    ensures |r| < |toks| ==> toks[|r|].StreamError?
  {
    if toks == [] || toks[0].StreamError? then [] else [toks[0]] + TokensRead(toks[1..])
  }

  /** A loop that stopped at the first error (or the end) has seen exactly TokensRead. */
  lemma TokensReadAt(toks: seq<Token>, i: nat)
    requires i <= |TokensRead(toks)|
    requires i == |toks| || toks[i].StreamError?
    ensures TokensRead(toks) == toks[..i]
  {
  }

  /** The attribute lists of the rows that decoded, in document order. */
  function RowsIn(toks: seq<Token>): seq<seq<Attr>> {
    if toks == [] then []
    else
      RowsIn(toks[..|toks| - 1]) +
      (match toks[|toks| - 1] case RowStart(attrs) => [attrs] case _ => [])
  }

  lemma {:induction false} RowsInAppend(a: seq<Token>, b: seq<Token>)
    ensures RowsIn(a + b) == RowsIn(a) + RowsIn(b)
  {
    if b != [] {
      assert (a + b)[..|a + b| - 1] == a + b[..|b| - 1];
      assert (a + b)[|a + b| - 1] == b[|b| - 1];
      RowsInAppend(a, b[..|b| - 1]);
    } else {
      assert a + b == a;
    }
  }

  /** The rows a scan of `toks` decodes before the stream ends or fails. */
  function DecodedRows(toks: seq<Token>): seq<seq<Attr>> {
    RowsIn(TokensRead(toks))
  }

  /** The rows seen by a loop that has consumed toks[..i] without error are a prefix of all decoded rows. */
  lemma RowsSoFarPrefix(toks: seq<Token>, i: nat)
    requires i <= |TokensRead(toks)|
    ensures RowsIn(toks[..i]) <= DecodedRows(toks)
  {
    var r := TokensRead(toks);
    assert r == toks[..i] + r[i..];
    RowsInAppend(toks[..i], r[i..]);
  }

  /** One more token read without error: a decoded row is the next of the decoded rows. */
  lemma NextToken(toks: seq<Token>, i: nat)
    requires i <= |TokensRead(toks)| && i < |toks| && !toks[i].StreamError?
    ensures i + 1 <= |TokensRead(toks)|
    ensures RowsIn(toks[..i + 1]) ==
      RowsIn(toks[..i]) + (if toks[i].RowStart? then [toks[i].attrs] else [])
    ensures toks[i].RowStart? ==>
      |RowsIn(toks[..i])| < |DecodedRows(toks)| && DecodedRows(toks)[|RowsIn(toks[..i])|] == toks[i].attrs
  {
    assert toks[..i + 1] == toks[..i] + [toks[i]];
    RowsInAppend(toks[..i], [toks[i]]);
    assert [toks[i]][..0] == [];
    RowsSoFarPrefix(toks, i + 1);
  }
}
