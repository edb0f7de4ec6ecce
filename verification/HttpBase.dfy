/** What requests and responses share. */
module HttpBase {
  import opened Text

  /** The exceptions of the parsers; both leave what has been assigned so far. */
  datatype Fault = NoFault | DelimFault | ReadFault

  /** A message after a parser has worked on it, and the exception the parser left with, if any. */
  datatype Parsed<+Q> = Parsed(q: Q, fault: Fault)

  /** `std::string(s, pos, len)`, whose length is unsigned: below zero means up to the end. */
  function Substr(s: string, pos: nat, len: int): string
    requires pos <= |s|
  {
    if len < 0 || pos + len > |s| then s[pos..] else s[pos..pos + len]
  }

  /** A field after `sscanf`, which assigns it only if it reads a number for it. */
  function Or(o: Option<int>, n: int): int {
    if o.Some? then o.value else n
  }

  function HeaderLine(name: string, value: string): string {
    name + ": " + value + "\r\n"
  }

  /** The headers in the order in which the hash map iterates over them. */
  function HeaderLines(headers: map<string, string>, order: seq<string>): string
    requires forall i :: 0 <= i < |order| ==> order[i] in headers
  {
    if order == [] then ""
    else HeaderLine(order[0], headers[order[0]]) + HeaderLines(headers, order[1..])
  }

  lemma HeaderLinesFrom(headers: map<string, string>, order: seq<string>, i: nat)
    requires (forall k :: 0 <= k < |order| ==> order[k] in headers) && i < |order|
    ensures HeaderLines(headers, order[i..])
            == order[i] + ": " + headers[order[i]] + "\r\n" + HeaderLines(headers, order[i + 1..])
  {
    assert order[i..][1..] == order[i + 1..];
  }

  lemma NoHeaderLines(headers: map<string, string>, order: seq<string>)
    requires order == []
    ensures HeaderLines(headers, order) == ""
  {
  }

  /** `order` lists every key once. */
  predicate Enumerates(order: seq<string>, headers: map<string, string>) {
    && (forall i :: 0 <= i < |order| ==> order[i] in headers)
    && (forall i, j :: 0 <= i < j < |order| ==> order[i] != order[j])
    && (forall k :: k in headers ==> k in order)
  }
}
