/**
 * The application/x-www-form-urlencoded serializer and parser that
 * `URLSearchParams` uses (section 5 of the WHATWG URL Standard), over an
 * ordered list of name/value pairs. Percent-encoding is a parameter
 * `encode`: the model only relies on the fact, true of the standard's
 * encoder, that its output never contains `&` or `=`. The parser returns
 * the names and values still encoded; decoding is left to the inverse of `encode`.
 */
module FormUrlencoded {
  import opened JsStrings

  type Pair = (string, string)

  /** An encoder whose output can never be mistaken for a pair or name/value delimiter. */
  ghost predicate SafeEncoder(encode: string -> string) {
    forall s :: '&' !in encode(s) && '=' !in encode(s)
  }

  /** Each pair with both of its parts encoded. */
  function Encoded(q: seq<Pair>, encode: string -> string): seq<Pair> {
    seq(|q|, i requires 0 <= i < |q| => (encode(q[i].0), encode(q[i].1)))
  }

  /** The `name=value` text of each pair, in order. */
  function Fields(q: seq<Pair>, encode: string -> string): seq<string> {
    seq(|q|, i requires 0 <= i < |q| => encode(q[i].0) + "=" + encode(q[i].1))
  }

  /**
   * `params.toString()`: the `name=value` fields joined with `&`. Parsing the
   * result gives back every pair, in order, with its name and value as the
   * encoder wrote them, provided the encoder never emits `&` or `=`.
   */
  function Serialize(q: seq<Pair>, encode: string -> string): (s: string)
    ensures SafeEncoder(encode) ==> Parse(s) == Encoded(q, encode)
  {
    SerializedFieldsParse(q, encode);
    Join(Fields(q, encode), '&')
  }

  /** A field cut at its first `=`; a field without `=` is a name with an empty value. */
  function SplitField(field: string): (p: Pair)
    ensures |p.0| <= |field| && '=' !in p.0
    ensures '=' !in field ==> p == (field, [])
    decreases |field|
  {
    if field == [] then ([], [])
    else if field[0] == '=' then ([], field[1..])
    else
      var p := SplitField(field[1..]);
      assert [field[0]] + field[1..] == field;
      ([field[0]] + p.0, p.1)
  }

  /** The parser's loop over the `&`-separated fields; empty fields are skipped. */
  function ParseFields(fields: seq<string>): seq<Pair> {
    if fields == [] then []
    else if fields[0] == [] then ParseFields(fields[1..])
    else [SplitField(fields[0])] + ParseFields(fields[1..])
  }

  function Parse(s: string): seq<Pair> {
    ParseFields(Split(s, '&'))
  }

  lemma {:induction false} SplitFieldAtFirstEquals(name: string, value: string)
    requires '=' !in name
    ensures SplitField(name + "=" + value) == (name, value)
    decreases |name|
  {
    var field := name + "=" + value;
    if name == [] {
      assert field[1..] == value;
    } else {
      assert field[1..] == name[1..] + "=" + value;
      SplitFieldAtFirstEquals(name[1..], value);
      assert [name[0]] + name[1..] == name;
    }
  }

  lemma {:induction false} ParseFieldsOfFields(q: seq<Pair>, encode: string -> string)
    requires SafeEncoder(encode)
    ensures ParseFields(Fields(q, encode)) == Encoded(q, encode)
    decreases |q|
  {
    if q != [] {
      var f := Fields(q, encode);
      assert f[1..] == Fields(q[1..], encode);
      assert f[0] != [] by { assert f[0][|encode(q[0].0)|] == '='; }
      SplitFieldAtFirstEquals(encode(q[0].0), encode(q[0].1));
      ParseFieldsOfFields(q[1..], encode);
      assert Encoded(q, encode) == [(encode(q[0].0), encode(q[0].1))] + Encoded(q[1..], encode);
    }
  }

  /** The proof of `Serialize`'s round trip. */
  lemma SerializedFieldsParse(q: seq<Pair>, encode: string -> string)
    ensures SafeEncoder(encode) ==> Parse(Join(Fields(q, encode), '&')) == Encoded(q, encode)
  {
    if SafeEncoder(encode) {
      var f := Fields(q, encode);
      if q == [] {
        assert Split(Join(f, '&'), '&') == [[]];
      } else {
        forall i | 0 <= i < |f| ensures '&' !in f[i] {
          assert f[i] == encode(q[i].0) + "=" + encode(q[i].1);
        }
        SplitJoin(f, '&');
      }
      ParseFieldsOfFields(q, encode);
    }
  }
}
