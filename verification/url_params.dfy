/**
 * `URLSearchParams`, after the WHATWG URL Standard. Its
 * application/x-www-form-urlencoded parser splits on `&`, skips empty
 * pieces, splits each piece at its first `=` (no `=` means an empty value)
 * and decodes name and value; it does not treat `?` specially, so
 * `URL.searchParams` parses the URL's query exactly as it is. Only the
 * string constructor `new URLSearchParams(init)` first drops one leading
 * `?` from `init`. `get(key)` returns the value of the FIRST pair whose name
 * is `key`.
 *
 * Decoding (`+` to space and percent-decoding) is a parameter: this model
 * does not interpret it.
 */
module UrlParams {
  import opened Wrappers
  import opened JsText

  datatype Pair = Pair(name: string, value: string)

  function StripQuestionMark(s: string): string {
    if |s| > 0 && s[0] == '?' then s[1..] else s
  }

  /** One `name=value` piece, split at its first `=`. */
  function ParsePair(piece: string, decode: string -> string): (p: Pair)
    ensures '=' !in piece ==> p == Pair(decode(piece), "")
    ensures '=' in piece ==> exists i :: 0 <= i < |piece| && piece[i] == '=' && '=' !in piece[..i]
                                       && p == Pair(decode(piece[..i]), decode(piece[i + 1..]))
  {
    match IndexOf(piece, '=')
    case None => Pair(decode(piece), "")
    case Some(i) => Pair(decode(piece[..i]), decode(piece[i + 1..]))
  }

  /** The non-empty pieces, each parsed, in order. */
  function ParsePieces(pieces: seq<string>, decode: string -> string): (ps: seq<Pair>)
    ensures |ps| <= |pieces|
    ensures (forall i :: 0 <= i < |pieces| ==> pieces[i] != "") ==> |ps| == |pieces|
  {
    if pieces == [] then []
    else if pieces[0] == "" then ParsePieces(pieces[1..], decode)
    else [ParsePair(pieces[0], decode)] + ParsePieces(pieces[1..], decode)
  }

  /** The application/x-www-form-urlencoded parser: what `URL.searchParams` holds for a query. */
  function Parse(query: string, decode: string -> string): seq<Pair> {
    ParsePieces(Split(query, '&'), decode)
  }

  /** `new URLSearchParams(init)` for a string: one leading `?` is dropped before parsing. */
  function FromString(init: string, decode: string -> string): (ps: seq<Pair>)
    ensures (init == [] || init[0] != '?') ==> ps == Parse(init, decode)
    ensures init != [] && init[0] == '?' ==> ps == Parse(init[1..], decode)
  {
    Parse(StripQuestionMark(init), decode)
  }

  /**
   * The parser keeps a leading `?`: a query `?key=value` holds a pair named
   * `?key`, so `get(key)` finds nothing there.
   */
  lemma ParseKeepsQuestionMark(key: string, value: string, decode: string -> string)
    requires '&' !in key && '=' !in key && '&' !in value
    requires decode("?" + key) == "?" + key
    ensures Parse("?" + key + "=" + value, decode) == [Pair("?" + key, decode(value))]
    ensures Get(Parse("?" + key + "=" + value, decode), key).None?
  {
    var name := "?" + key;
    var q := name + "=" + value;
    assert '&' !in q by {
      forall i | 0 <= i < |q| ensures q[i] != '&' {
        if i < |name| { assert q[i] == name[i]; } else if i > |name| { assert q[i] == value[i - |name| - 1]; }
      }
    }
    assert Split(q, '&') == [q];
    assert q[|name|] == '=' && q[..|name|] == name && q[|name| + 1..] == value;
    assert IndexOf(q, '=') == Some(|name|);
  }

  /** A query `piece&rest` parses as the piece's pair followed by the pairs of `rest`. */
  lemma ParseCons(piece: string, rest: string, decode: string -> string)
    requires piece != "" && '&' !in piece
    ensures Parse(piece + "&" + rest, decode) == [ParsePair(piece, decode)] + Parse(rest, decode)
  {
    assert piece + "&" + rest == piece + ['&'] + rest;
    SplitCons(piece, '&', rest);
    var pieces := Split(piece + "&" + rest, '&');
    assert pieces[0] == piece && pieces[1..] == Split(rest, '&');
  }

  /** Behind a leading `?key=value` piece, `get(key)` reads only what the rest of the query holds. */
  lemma QuestionMarkPieceSkipped(key: string, value: string, rest: string, decode: string -> string)
    requires '&' !in key && '=' !in key && '&' !in value
    requires decode("?" + key) == "?" + key
    ensures Get(Parse("?" + key + "=" + value + "&" + rest, decode), key) == Get(Parse(rest, decode), key)
  {
    var piece := "?" + key + "=" + value;
    ParseKeepsQuestionMark(key, value, decode);
    assert Split(piece, '&') == [piece];
    ParseCons(piece, rest, decode);
    var params := Parse(piece + "&" + rest, decode);
    assert params[0].name != key by { assert |params[0].name| == |key| + 1; }
    assert params[1..] == Parse(rest, decode);
  }

  /** `params.get(key)`: the value of the first pair named `key`, absent when there is none. */
  function Get(pairs: seq<Pair>, key: string): (r: Option<string>)
    ensures r.None? <==> forall i :: 0 <= i < |pairs| ==> pairs[i].name != key
    ensures r.Some? ==> exists i :: 0 <= i < |pairs| && pairs[i].name == key && pairs[i].value == r.value
                                  && forall j :: 0 <= j < i ==> pairs[j].name != key
  {
    if pairs == [] then None
    else if pairs[0].name == key then Some(pairs[0].value)
    else Get(pairs[1..], key)
  }

  /** A name that occurs once is read as the value it is paired with. */
  lemma GetUnique(pairs: seq<Pair>, i: nat)
    requires i < |pairs|
    requires forall j :: 0 <= j < |pairs| && j != i ==> pairs[j].name != pairs[i].name
    ensures Get(pairs, pairs[i].name) == Some(pairs[i].value)
  {
    var r := Get(pairs, pairs[i].name);
    assert r.Some?;
    var k :| 0 <= k < |pairs| && pairs[k].name == pairs[i].name && pairs[k].value == r.value;
    assert k == i;
  }

  /** `name=value`, the form a serializer writes one pair in. */
  function PairText(p: Pair): string {
    p.name + "=" + p.value
  }

  /** The pairs written out joined by `&` (empty for no pairs). */
  function Serialize(pairs: seq<Pair>): string {
    if pairs == [] then "" else Join(PairTexts(pairs), '&')
  }

  function PairTexts(pairs: seq<Pair>): (ts: seq<string>)
    ensures |ts| == |pairs|
    ensures forall i :: 0 <= i < |pairs| ==> ts[i] == PairText(pairs[i])
  {
    if pairs == [] then [] else [PairText(pairs[0])] + PairTexts(pairs[1..])
  }

  /** A pair that survives writing and parsing unchanged under `decode`. */
  predicate Plain(p: Pair, decode: string -> string) {
    && p.name != ""
    && '&' !in p.name && '=' !in p.name && '&' !in p.value
    && decode(p.name) == p.name && decode(p.value) == p.value
  }

  lemma ParsePairText(p: Pair, decode: string -> string)
    requires Plain(p, decode)
    ensures ParsePair(PairText(p), decode) == p
  {
    var t := PairText(p);
    assert t[|p.name|] == '=';
    assert t[..|p.name|] == p.name;
    var i := IndexOf(t, '=').value;
    assert i == |p.name|;
    assert t[i + 1..] == p.value;
  }

  lemma {:induction false} ParsePairTexts(pairs: seq<Pair>, decode: string -> string)
    requires forall i :: 0 <= i < |pairs| ==> Plain(pairs[i], decode)
    ensures ParsePieces(PairTexts(pairs), decode) == pairs
  {
    if pairs != [] {
      var ts := PairTexts(pairs);
      assert ts[0] != "";
      assert ts[1..] == PairTexts(pairs[1..]);
      ParsePairTexts(pairs[1..], decode);
      ParsePairText(pairs[0], decode);
    }
  }

  /** Writing pairs out and parsing them back gives the same pairs, in order. */
  lemma ParseSerialize(pairs: seq<Pair>, decode: string -> string)
    requires forall i :: 0 <= i < |pairs| ==> Plain(pairs[i], decode)
    ensures Parse(Serialize(pairs), decode) == pairs
  {
    if pairs != [] {
      var ts := PairTexts(pairs);
      forall i | 0 <= i < |ts|
        ensures '&' !in ts[i]
      {
        assert ts[i] == pairs[i].name + "=" + pairs[i].value;
      }
      SplitJoin(ts, '&');
      ParsePairTexts(pairs, decode);
    }
  }
}
