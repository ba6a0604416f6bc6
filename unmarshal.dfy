/** Decoding of the one-or-many containers and of whole documents.  The JSON
    decoder itself is a parameter: a function from the raw text of a value to
    the decoded value or an error message. */
module Unmarshal {
  import opened Wrappers
  import opened Documents

  /** The error of a container whose raw value is neither an object nor an
      array. */
  const Invalid: string := "invalid"

  /** UnmarshalJSON of HybridResource and HybridDocument: a raw value that
      starts with `{` is decoded into the single branch, one that starts with
      `[` into the list branch, and anything else is refused. */
  function UnmarshalHybrid<T>(c: Hybrid<T>, raw: string,
                              decodeOne: string -> Result<T, string>,
                              decodeMany: string -> Result<seq<T>, string>): (r: Result<Hybrid<T>, string>)
    ensures (raw == [] || (raw[0] != '{' && raw[0] != '[')) ==> r == Failure(Invalid)
    ensures raw != [] && raw[0] == '{' ==>
      r == if decodeOne(raw).Success? then Success(c.(one := Some(decodeOne(raw).value))) else Failure(decodeOne(raw).error)
    ensures raw != [] && raw[0] == '[' ==>
      r == if decodeMany(raw).Success? then Success(c.(many := Some(decodeMany(raw).value))) else Failure(decodeMany(raw).error)
  {
    if |raw| > 0 && raw[0] == '{' then
      match decodeOne(raw)
      case Success(one) => Success(c.(one := Some(one)))
      case Failure(e) => Failure(e)
    else if |raw| > 0 && raw[0] == '[' then
      match decodeMany(raw)
      case Success(many) => Success(c.(many := Some(many)))
      case Failure(e) => Failure(e)
    else
      Failure(Invalid)
  }

  /** Decoding into a fresh container sets exactly one branch: the single one
      for an object and the list one for an array. */
  lemma FreshDecodeSetsOneBranch<T>(raw: string, decodeOne: string -> Result<T, string>,
                                    decodeMany: string -> Result<seq<T>, string>)
    requires UnmarshalHybrid(Hybrid(None, None), raw, decodeOne, decodeMany).Success?
    ensures var h := UnmarshalHybrid(Hybrid(None, None), raw, decodeOne, decodeMany).value;
      (h.one.Some? <==> raw[0] == '{') && (h.many.Some? <==> raw[0] == '[') && (h.one.Some? != h.many.Some?)
  {
  }

  /** Strings, numbers, booleans, null and empty input are refused before the
      decoder is consulted. */
  lemma LiteralsRefused<T>(decodeOne: string -> Result<T, string>, decodeMany: string -> Result<seq<T>, string>)
    ensures forall raw :: raw in ["", "1", "\"foo\"", "true", "null"] ==>
      UnmarshalHybrid(Hybrid(None, None), raw, decodeOne, decodeMany) == Failure(Invalid)
  {
  }

  /** The relationships object of a resource: its members in the order of the
      text, each decoded into a fresh document container.  The first member
      that fails makes the whole object fail; a repeated name keeps the last
      value. */
  function DecodeRelationships(members: seq<(string, string)>,
                               decodeOne: string -> Result<Document, string>,
                               decodeMany: string -> Result<seq<Document>, string>): (r: Result<map<string, HybridDocument>, string>)
    ensures r.Success? <==>
      forall i :: 0 <= i < |members| ==> UnmarshalHybrid(Hybrid(None, None), members[i].1, decodeOne, decodeMany).Success?
    ensures r.Success? ==> forall i :: 0 <= i < |members| ==> members[i].0 in r.value
    ensures r.Success? ==> forall name :: name in r.value ==> exists i :: 0 <= i < |members| && members[i].0 == name
    decreases |members|
  {
    if members == [] then Success(map[])
    else
      var front := members[..|members| - 1];
      var (name, raw) := members[|members| - 1];
      match DecodeRelationships(front, decodeOne, decodeMany)
      case Failure(e) => Failure(e)
      case Success(m) =>
        match UnmarshalHybrid(Hybrid(None, None), raw, decodeOne, decodeMany)
        case Failure(e) => Failure(e)
        case Success(h) =>
          assert forall i :: 0 <= i < |front| ==> members[i] == front[i];
          Success(m[name := h])
  }

  /** A decoded relationships object holds, under each name, the container
      decoded from the last member with that name. */
  lemma {:induction false} LastMemberWins(members: seq<(string, string)>,
                                          decodeOne: string -> Result<Document, string>,
                                          decodeMany: string -> Result<seq<Document>, string>, j: int)
    requires DecodeRelationships(members, decodeOne, decodeMany).Success?
    requires 0 <= j < |members|
    requires forall k :: j < k < |members| ==> members[k].0 != members[j].0
    ensures DecodeRelationships(members, decodeOne, decodeMany).value[members[j].0]
      == UnmarshalHybrid(Hybrid(None, None), members[j].1, decodeOne, decodeMany).value
    decreases |members|
  {
    var front := members[..|members| - 1];
    if j < |members| - 1 {
      assert front[j] == members[j];
      forall k | j < k < |front| ensures front[k].0 != front[j].0 {
        assert front[k] == members[k];
      }
      LastMemberWins(front, decodeOne, decodeMany, j);
    }
  }

  /** A relationship member that is not an object or an array makes the
      whole relationships object fail. */
  lemma {:induction false} BadMemberFails(members: seq<(string, string)>,
                                          decodeOne: string -> Result<Document, string>,
                                          decodeMany: string -> Result<seq<Document>, string>, j: int)
    requires 0 <= j < |members|
    requires members[j].1 == [] || (members[j].1[0] != '{' && members[j].1[0] != '[')
    ensures DecodeRelationships(members, decodeOne, decodeMany).Failure?
  {
    assert UnmarshalHybrid(Hybrid(None, None), members[j].1, decodeOne, decodeMany).Failure?;
  }

  /** The characters JSON ignores between tokens. */
  predicate IsSpace(ch: char) {
    ch == ' ' || ch == '\t' || ch == '\n' || ch == '\r'
  }

  /** The input after its leading white space. */
  function SkipSpace(s: string): (r: string)
    ensures |r| <= |s| && r == s[|s| - |r|..]
    ensures r == [] || !IsSpace(r[0])
    ensures forall i :: 0 <= i < |s| - |r| ==> IsSpace(s[i])
    decreases |s|
  {
    if s != [] && IsSpace(s[0]) then SkipSpace(s[1..]) else s
  }

  /** The error of an input that ends before a value starts. */
  const EndOfInput: string := "EOF"

  /** The error of a top-level value that is not an object. */
  const NotAnObject: string := "cannot unmarshal into a document"

  /** UnmarshalDocument: decodes the first JSON value of the input into a
      document.  An object is handed to the decoder, `null` leaves the empty
      document, and any other value or an empty input is an error. */
  function UnmarshalDocument(input: string, decodeObject: string -> Result<Document, string>): (r: Result<Document, string>)
    ensures SkipSpace(input) == [] ==> r == Failure(EndOfInput)
    ensures SkipSpace(input) != [] && SkipSpace(input)[0] == '{' ==> r == decodeObject(SkipSpace(input))
    ensures r.Success? ==> (SkipSpace(input)[0] == '{' && r == decodeObject(SkipSpace(input))) || r.value == EmptyDocument
  {
    var s := SkipSpace(input);
    if s == [] then Failure(EndOfInput)
    else if s[0] == '{' then decodeObject(s)
    else if |s| >= 4 && s[..4] == "null" then Success(EmptyDocument)
    else Failure(NotAnObject)
  }

  lemma {:induction false} SkipLeadingSpace(space: string, input: string)
    requires forall i :: 0 <= i < |space| ==> IsSpace(space[i])
    ensures SkipSpace(space + input) == SkipSpace(input)
    decreases |space|
  {
    if space == [] {
      assert space + input == input;
    } else {
      assert (space + input)[0] == space[0] && IsSpace(space[0]);
      assert (space + input)[1..] == space[1..] + input;
      assert SkipSpace(space + input) == SkipSpace(space[1..] + input);
      SkipLeadingSpace(space[1..], input);
    }
  }

  /** Leading white space does not change the outcome. */
  lemma SpaceIgnored(space: string, input: string, decodeObject: string -> Result<Document, string>)
    requires forall i :: 0 <= i < |space| ==> IsSpace(space[i])
    ensures UnmarshalDocument(space + input, decodeObject) == UnmarshalDocument(input, decodeObject)
  {
    SkipLeadingSpace(space, input);
  }

  /** A top-level value that starts with anything but `{` or `n` is refused:
      numbers, strings, booleans and arrays. */
  lemma OtherValuesRefused(raw: string, decodeObject: string -> Result<Document, string>)
    requires raw != [] && !IsSpace(raw[0]) && raw[0] != '{' && raw[0] != 'n'
    ensures UnmarshalDocument(raw, decodeObject) == Failure(NotAnObject)
  {
    assert SkipSpace(raw) == raw;
    assert |raw| >= 4 ==> raw[..4][0] != "null"[0];
  }
}
