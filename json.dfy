/**
 * JSON documents as values, and the text shape of a JSON array. The encoder
 * itself (`json.Dump`) is a library the plugin calls; here it stays an
 * uninterpreted function `dump: JsonValue -> string` supplied by the caller.
 */
module Json {

  /**
   * The JSON values the encoder is handed. `JList` is there for the fields
   * of a struct's primitive dictionary, where a repeated field is a list;
   * the plugin's own documents use only objects, integers and strings.
   */
  datatype JsonValue =
    | JString(str: string)
    | JInt(num: int)
    | JList(items: seq<JsonValue>)
    | JObject(fields: map<string, JsonValue>)

  /** `xs[0] + sep + xs[1] + sep + ... + xs[n-1]`: the elements with one separator between neighbours. */
  function Join(sep: string, xs: seq<string>): string
  {
    if xs == [] then ""
    else if |xs| == 1 then xs[0]
    else xs[0] + sep + Join(sep, xs[1..])
  }

  /** `sep + xs[0] + sep + xs[1] + ...`: every element preceded by one separator. */
  function PrefixEach(sep: string, xs: seq<string>): string
  {
    if xs == [] then "" else sep + xs[0] + PrefixEach(sep, xs[1..])
  }

  /** The concatenation of a sequence of strings. */
  function Concat(xs: seq<string>): string
  {
    if xs == [] then "" else xs[0] + Concat(xs[1..])
  }

  lemma {:induction false} PrefixEachAppend(sep: string, xs: seq<string>, ys: seq<string>)
    ensures PrefixEach(sep, xs + ys) == PrefixEach(sep, xs) + PrefixEach(sep, ys)
    decreases |xs|
  {
    if xs == [] {
      assert xs + ys == ys;
    } else {
      assert (xs + ys)[0] == xs[0] && (xs + ys)[1..] == xs[1..] + ys;
      PrefixEachAppend(sep, xs[1..], ys);
    }
  }

  /** Writing the first element bare and every later one behind a separator gives the joined text. */
  lemma {:induction false} FirstThenPrefixed(sep: string, x: string, xs: seq<string>)
    ensures x + PrefixEach(sep, xs) == Join(sep, [x] + xs)
    decreases |xs|
  {
    if xs != [] {
      FirstThenPrefixed(sep, xs[0], xs[1..]);
      assert ([x] + xs)[1..] == [xs[0]] + xs[1..];
    }
  }

  lemma {:induction false} ConcatAppend(xs: seq<string>, ys: seq<string>)
    ensures Concat(xs + ys) == Concat(xs) + Concat(ys)
    decreases |xs|
  {
    if xs == [] {
      assert xs + ys == ys;
    } else {
      assert (xs + ys)[0] == xs[0] && (xs + ys)[1..] == xs[1..] + ys;
      ConcatAppend(xs[1..], ys);
    }
  }

  /** Two leading pieces and one trailing piece around a sequence of texts. */
  lemma Bracketed(open: string, x: string, xs: seq<string>, close: string)
    ensures Concat([open, x] + xs + [close]) == open + x + Concat(xs) + close
  {
    ConcatAppend([open, x] + xs, [close]);
    ConcatAppend([open, x], xs);
    assert Concat([open, x]) == open + x;
    assert Concat([close]) == close;
  }
}
