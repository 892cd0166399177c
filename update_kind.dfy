/** AudioTranscriptionUpdateKind: a kind of streaming update, tagged by a string that is compared
    ignoring case, with five canonical kinds and a JSON converter that writes the tag as a JSON
    string. */
module UpdateKinds {
  import opened Wrappers
  import opened Text
  import opened JsonString

  /** The struct, holding its Value. */
  datatype UpdateKind = UpdateKind(value: string)

  /** What the constructor guarantees of Value: it is not empty and not white space only. */
  predicate Valid(k: UpdateKind)
  {
    !IsNullOrWhiteSpace(Some(k.value))
  }

  /** new AudioTranscriptionUpdateKind(value): ArgumentNullException for null, ArgumentException
      for an empty or white-space value, and the kind with exactly that value otherwise. */
  function New(value: Option<string>): (r: Result<UpdateKind>)
    ensures r.Success? <==> !IsNullOrWhiteSpace(value)
    ensures r.Success? ==> r.value.value == value.value && Valid(r.value)
    ensures value.None? ==> r == Failure(ArgumentNullException)
    ensures value.Some? && r.Failure? ==> r.error == ArgumentException
  {
    if value.None? then Failure(ArgumentNullException)
    else if IsNullOrWhiteSpace(value) then Failure(ArgumentException)
    else Success(UpdateKind(value.value))
  }

  const SessionOpen: UpdateKind := UpdateKind("sessionopen")
  const Error: UpdateKind := UpdateKind("error")
  const Transcribing: UpdateKind := UpdateKind("transcribing")
  const Transcribed: UpdateKind := UpdateKind("transcribed")
  const SessionClose: UpdateKind := UpdateKind("sessionclose")

  /** Equals(other): the values compared with StringComparison.OrdinalIgnoreCase. */
  predicate Equals(a: UpdateKind, b: UpdateKind): (r: bool)
    ensures r <==> Fold(a.value) == Fold(b.value)
  {
    EqualsIgnoreCaseIsFoldEquality(a.value, b.value);
    EqualsIgnoreCase(a.value, b.value)
  }

  /** operator ==: left.Equals(right), which holds exactly when the upper-cased values agree. */
  function Eq(left: UpdateKind, right: UpdateKind): (b: bool)
    ensures b <==> Fold(left.value) == Fold(right.value)
  {
    EqualsIgnoreCaseIsFoldEquality(left.value, right.value);
    Equals(left, right)
  }

  /** operator !=: !(left == right), which holds exactly when the upper-cased values differ. */
  function Neq(left: UpdateKind, right: UpdateKind): (b: bool)
    ensures b <==> Fold(left.value) != Fold(right.value)
  {
    !Eq(left, right)
  }

  /** GetHashCode: StringComparer.OrdinalIgnoreCase hashes the upper-cased value with the
      runtime's string hash, given here as stringHash. */
  function GetHashCode(stringHash: string -> int, k: UpdateKind): (h: int)
    ensures forall s :: Fold(s) == Fold(k.value) ==> h == stringHash(Fold(s))
  {
    stringHash(Fold(k.value))
  }

  /** ToString returns Value, so constructing a kind from it gives the same kind back. */
  function ToString(k: UpdateKind): (s: string)
    ensures Valid(k) ==> New(Some(s)) == Success(k)
  {
    k.value
  }

  /** Equals is an equivalence: reflexive, symmetric and transitive. */
  lemma EqualsIsEquivalence(a: UpdateKind, b: UpdateKind, c: UpdateKind)
    ensures Equals(a, a)
    ensures Equals(a, b) ==> Equals(b, a)
    ensures Equals(a, b) && Equals(b, c) ==> Equals(a, c)
  {
    EqualsIgnoreCaseIsFoldEquality(a.value, a.value);
    EqualsIgnoreCaseIsFoldEquality(a.value, b.value);
    EqualsIgnoreCaseIsFoldEquality(b.value, a.value);
    EqualsIgnoreCaseIsFoldEquality(b.value, c.value);
    EqualsIgnoreCaseIsFoldEquality(a.value, c.value);
  }

  /** == agrees with Equals, and != is its negation. */
  lemma OperatorsAgree(a: UpdateKind, b: UpdateKind)
    ensures Eq(a, b) <==> Equals(a, b)
    ensures Neq(a, b) <==> !Eq(a, b)
  {
    EqualsIgnoreCaseIsFoldEquality(a.value, b.value);
  }

  /** Kinds that are equal have equal hash codes, whatever the string hash is. */
  lemma EqualKindsHashEqually(stringHash: string -> int, a: UpdateKind, b: UpdateKind)
    requires Equals(a, b)
    ensures GetHashCode(stringHash, a) == GetHashCode(stringHash, b)
  {
    EqualsIgnoreCaseIsFoldEquality(a.value, b.value);
  }

  /** A kind is equal to any kind spelled with different letter case. */
  lemma CaseDoesNotMatter(k: UpdateKind)
    ensures Equals(k, UpdateKind(Fold(k.value)))
  {
    FoldIdempotent(k.value);
    EqualsIgnoreCaseIsFoldEquality(k.value, Fold(k.value));
  }

  /** The canonical kinds are valid, have the documented values and are pairwise unequal. */
  lemma CanonicalKinds()
    ensures New(Some("sessionopen")) == Success(SessionOpen)
    ensures New(Some("error")) == Success(Error)
    ensures New(Some("transcribing")) == Success(Transcribing)
    ensures New(Some("transcribed")) == Success(Transcribed)
    ensures New(Some("sessionclose")) == Success(SessionClose)
    ensures !Equals(SessionOpen, Error) && !Equals(SessionOpen, Transcribing)
    ensures !Equals(SessionOpen, Transcribed) && !Equals(SessionOpen, SessionClose)
    ensures !Equals(Error, Transcribing) && !Equals(Error, Transcribed) && !Equals(Error, SessionClose)
    ensures !Equals(Transcribing, Transcribed) && !Equals(Transcribing, SessionClose)
    ensures !Equals(Transcribed, SessionClose)
  {
    assert !IsWhiteSpace(SessionOpen.value[0]) && !IsWhiteSpace(Error.value[0]);
    assert !IsWhiteSpace(Transcribing.value[0]) && !IsWhiteSpace(Transcribed.value[0]);
    assert !IsWhiteSpace(SessionClose.value[0]);
    assert FoldChar(SessionOpen.value[0]) != FoldChar(Transcribed.value[0]);
    assert FoldChar(Transcribing.value[0]) != FoldChar(SessionClose.value[0]);
    assert FoldChar(Transcribing.value[9]) != FoldChar(Transcribed.value[9]);
  }

  /** The JSON writer the converter writes to: the text written so far. */
  datatype JsonWriter = JsonWriter(written: string)

  /** Converter.Write: ArgumentNullException without a writer, otherwise Value written as a
      JSON string. */
  function Write(writer: Option<JsonWriter>, k: UpdateKind): (r: Result<JsonWriter>)
    ensures writer.None? <==> r == Failure(ArgumentNullException)
    ensures writer.Some? ==> r.Success? && r.value.written == writer.value.written + WriteString(k.value)
  {
    if writer.None? then Failure(ArgumentNullException)
    else Success(JsonWriter(writer.value.written + WriteString(k.value)))
  }

  /** Converter.Read on the token text: new(reader.GetString()!), so a null token throws
      ArgumentNullException from the constructor. */
  function Read(token: string): (r: Result<UpdateKind>)
    ensures r.Success? ==> Valid(r.value) && GetString(token) == Success(Some(r.value.value))
    ensures GetString(token) == Success(None) ==> r == Failure(ArgumentNullException)
    ensures GetString(token).Failure? ==> r == Failure(GetString(token).error)
  {
    match GetString(token)
    case Failure(e) => Failure(e)
    case Success(s) => New(s)
  }

  /** Reading what Write wrote gives the same kind back. */
  lemma WriteReadRoundTrip(k: UpdateKind, writer: JsonWriter)
    requires Valid(k)
    ensures var w := Write(Some(writer), k);
            w.Success? && Read(w.value.written[|writer.written|..]) == Success(k)
  {
    var w := Write(Some(writer), k);
    assert w.value.written[|writer.written|..] == WriteString(k.value);
    JsonString.WriteReadRoundTrip(k.value);
  }

  /** A JSON null token reads as an ArgumentNullException, and a blank string as an
      ArgumentException. */
  lemma ReadRejects(blank: string)
    requires IsNullOrWhiteSpace(Some(blank))
    ensures Read("null") == Failure(ArgumentNullException)
    ensures Read(WriteString(blank)) == Failure(ArgumentException)
  {
    JsonString.WriteReadRoundTrip(blank);
  }
}
