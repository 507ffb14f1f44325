/**
 * One part's header block: `parse_part_headers` and `unquote` of multipart.rs.
 */
module PartHeaders {
  import opened Basics
  import opened Search
  import opened Text

  datatype PartMeta = PartMeta(name: string, filename: Option<string>, contentType: Option<string>)

  datatype ParseError = Malformed(what: string) | HeadersTooLarge | TooManyParts

  const CRLF: string := "\r\n"

  // ---------- the meaning of a header block ----------

  /** What has been read so far: the three `Option` locals of `parse_part_headers`. */
  datatype Fields = Fields(name: Option<string>, filename: Option<string>, contentType: Option<string>)

  const NoFields := Fields(None, None, None)

  function Unescape(q: string): string {
    if q == "" then ""
    else if q[0] != '\\' then [q[0]] + Unescape(q[1..])
    else if |q| == 1 then ""
    else [q[1]] + Unescape(q[2..])
  }

  /** A double-quoted value is unescaped; anything else passes through. */
  function Unquoted(v: string): string {
    if |v| >= 2 && v[0] == '"' && v[|v| - 1] == '"' then Unescape(v[1..|v| - 1]) else v
  }

  function WithParam(f: Fields, param: string): Fields {
    match SplitOnce(param, '=')
    case None => f
    case Some((k, v)) =>
      if Trim(k) == "name" then f.(name := Some(Unquoted(Trim(v))))
      else if Trim(k) == "filename" then f.(filename := Some(Unquoted(Trim(v))))
      else f
  }

  function WithParams(f: Fields, params: seq<string>): Fields
    decreases params
  {
    if params == [] then f else WithParams(WithParam(f, params[0]), params[1..])
  }

  function WithLine(f: Fields, line: string): Result<Fields, ParseError> {
    if line == "" then Ok(f)
    else match SplitOnce(line, ':')
      case None => Err(Malformed("malformed part header line"))
      case Some((k, v)) =>
        var key := Lower(Trim(k));
        var value := Trim(v);
        if key == "content-disposition" then Ok(WithParams(f, SplitOn(value, ";")[1..]))
        else if key == "content-type" then Ok(f.(contentType := Some(value)))
        else Ok(f)
  }

  function WithLines(f: Fields, lines: seq<string>): Result<Fields, ParseError>
    decreases lines
  {
    if lines == [] then Ok(f)
    else match WithLine(f, lines[0])
      case Err(e) => Err(e)
      case Ok(g) => WithLines(g, lines[1..])
  }

  function Finished(f: Fields): Result<PartMeta, ParseError> {
    match f.name
    case None => Err(Malformed("part is missing a form-data name"))
    case Some(n) => Ok(PartMeta(n, f.filename, f.contentType))
  }

  function HeadersOf(block: seq<Byte>): Result<PartMeta, ParseError> {
    match Decode(block)
    case None => Err(Malformed("part headers are not valid UTF-8"))
    case Some(text) =>
      match WithLines(NoFields, SplitOn(text, CRLF))
      case Err(e) => Err(e)
      case Ok(f) => Finished(f)
  }

  /** Header errors are never the size error, so the two judgements of a block can be told apart. */
  lemma {:induction false} HeaderErrorsAreMalformed(f: Fields, lines: seq<string>)
    ensures WithLines(f, lines).Err? ==> WithLines(f, lines).error.Malformed?
    decreases lines
  {
    if lines != [] && WithLine(f, lines[0]).Ok? {
      HeaderErrorsAreMalformed(WithLine(f, lines[0]).value, lines[1..]);
    }
  }

  lemma {:induction false} BlockErrorsAreMalformed(block: seq<Byte>)
    ensures HeadersOf(block).Err? ==> HeadersOf(block).error.Malformed?
  {
    hide WithLines;
    match Decode(block)
    case None =>
    case Some(text) => HeaderErrorsAreMalformed(NoFields, SplitOn(text, CRLF));
  }

  // ---------- the loops of the source ----------

  method Unquote(v: string) returns (out: string)
    ensures out == Unquoted(v)
  {
    if !(|v| >= 2 && v[0] == '"' && v[|v| - 1] == '"') {
      return v;
    }
    var q := v[1..|v| - 1];
    out := "";
    var i := 0;
    while i < |q|
      invariant 0 <= i <= |q|
      invariant out + Unescape(q[i..]) == Unescape(q)
    {
      if q[i] == '\\' {
        if i + 1 < |q| {
          assert q[i..][1] == q[i + 1] && q[i..][2..] == q[i + 2..];
          assert out + ([q[i + 1]] + Unescape(q[i + 2..])) == out + [q[i + 1]] + Unescape(q[i + 2..]);
          out := out + [q[i + 1]];
          i := i + 2;
        } else {
          i := i + 1;
        }
      } else {
        assert q[i..][1..] == q[i + 1..];
        assert out + ([q[i]] + Unescape(q[i + 1..])) == out + [q[i]] + Unescape(q[i + 1..]);
        out := out + [q[i]];
        i := i + 1;
      }
    }
  }

  method ParsePartHeaders(block: seq<Byte>) returns (r: Result<PartMeta, ParseError>)
    ensures r == HeadersOf(block)
  {
    var decoded := Decode(block);
    if decoded == None {
      return Err(Malformed("part headers are not valid UTF-8"));
    }
    var lines := SplitOn(decoded.value, CRLF);
    var f := NoFields;
    var i := 0;
    while i < |lines|
      invariant 0 <= i <= |lines|
      invariant WithLines(f, lines[i..]) == WithLines(NoFields, lines)
    {
      assert lines[i..][1..] == lines[i + 1..];
      var line := lines[i];
      i := i + 1;
      if line == "" { continue; }
      var kv := SplitOnce(line, ':');
      if kv == None {
        return Err(Malformed("malformed part header line"));
      }
      var key, value := Lower(Trim(kv.value.0)), Trim(kv.value.1);
      if key == "content-disposition" {
        f := DispositionParams(f, SplitOn(value, ";")[1..]);
      } else if key == "content-type" {
        f := f.(contentType := Some(value));
      }
    }
    r := if f.name == None then Err(Malformed("part is missing a form-data name"))
         else Ok(PartMeta(f.name.value, f.filename, f.contentType));
  }

  method DispositionParams(f0: Fields, params: seq<string>) returns (f: Fields)
    ensures f == WithParams(f0, params)
  {
    f := f0;
    var i := 0;
    while i < |params|
      invariant 0 <= i <= |params|
      invariant WithParams(f, params[i..]) == WithParams(f0, params)
    {
      assert params[i..][1..] == params[i + 1..];
      var kv := SplitOnce(params[i], '=');
      if kv != None {
        var v := Unquote(Trim(kv.value.1));
        if Trim(kv.value.0) == "name" {
          f := f.(name := Some(v));
        } else if Trim(kv.value.0) == "filename" {
          f := f.(filename := Some(v));
        }
      }
      i := i + 1;
    }
  }

  // ---------- text without line breaks ----------

  /** CR directly before LF occurs nowhere; either may occur alone. */
  predicate NoCrlf(s: string) { forall j :: 0 <= j && j + 1 < |s| ==> !(s[j] == '\r' && s[j + 1] == '\n') }

  lemma NoCrlfConcat(a: string, b: string)
    requires NoCrlf(a) && NoCrlf(b) && (a == "" || b == "" || a[|a| - 1] != '\r' || b[0] != '\n')
    ensures NoCrlf(a + b)
  {
    var s := a + b;
    forall j | 0 <= j && j + 1 < |s| ensures !(s[j] == '\r' && s[j + 1] == '\n') {
      if j + 1 < |a| {
        assert s[j] == a[j] && s[j + 1] == a[j + 1];
      } else if j >= |a| {
        assert s[j] == b[j - |a|] && s[j + 1] == b[j + 1 - |a|];
      }
    }
  }

  lemma NoCrlfLiteral(s: string)
    requires '\r' !in s
    ensures NoCrlf(s)
  {
    forall j | 0 <= j < |s| ensures s[j] != '\r' { assert s[j] in s; }
  }
}
