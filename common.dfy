/** Shared vocabulary of the model: nullable values, the exceptions the
    services throw (as error values), and the few java.lang.String
    behaviours the formatters and mappers rely on. */
module Common {

  /** A Java reference that may be null. */
  datatype Option<T> = None | Some(value: T)

  /** The exceptions thrown by the services, one constructor per kind:
      ResourceNotFoundException, BookingConflictException,
      IllegalStateException, ResourceAlreadyExistsException,
      EmailAlreadyExistsException, PhoneAlreadyExistsException,
      IllegalArgumentException, and a NullPointerException from
      dereferencing or unboxing a null. */
  datatype Error = NotFound | Conflict | InvalidState | AlreadyExists | EmailInUse | PhoneInUse
                 | InvalidArgument | NullPointer

  /** The outcome of an operation that returns a value or throws. */
  datatype Result<T> = Ok(value: T) | Err(error: Error)

  /** The outcome of a `void` operation. */
  datatype Outcome = Pass | Fail(error: Error)

  /** What `"" + s` yields in Java: a null reference prints as "null". */
  function Str(s: Option<string>): string {
    if s.None? then "null" else s.value
  }

  /** `s == null || s.isEmpty()` */
  predicate IsNullOrEmpty(s: Option<string>) {
    s.None? || s.value == ""
  }

  /** The characters String.trim() removes: every code point up to U+0020. */
  predicate IsTrimmable(c: char) {
    c <= ' '
  }

  /** Drops the leading trimmable characters. */
  function TrimStart(s: string): (r: string)
    ensures |r| <= |s| && r == s[|s| - |r|..]
    ensures r == [] || !IsTrimmable(r[0])
    ensures forall i :: 0 <= i < |s| - |r| ==> IsTrimmable(s[i])
  {
    if |s| > 0 && IsTrimmable(s[0]) then TrimStart(s[1..]) else s
  }

  /** Drops the trailing trimmable characters. */
  function TrimEnd(s: string): (r: string)
    ensures |r| <= |s| && r == s[..|r|]
    ensures r == [] || !IsTrimmable(r[|r| - 1])
    ensures forall i :: |r| <= i < |s| ==> IsTrimmable(s[i])
  {
    if |s| > 0 && IsTrimmable(s[|s| - 1]) then TrimEnd(s[..|s| - 1]) else s
  }

  /** String.trim(): the input without its leading and trailing characters
      at or below U+0020. */
  function Trim(s: string): (r: string)
    ensures r == [] || (!IsTrimmable(r[0]) && !IsTrimmable(r[|r| - 1]))
    ensures |r| <= |s|
  {
    TrimEnd(TrimStart(s))
  }

  /** What trim() removes: the result is one contiguous slice of the input,
      and everything outside that slice is trimmable. */
  lemma TrimIsSlice(s: string)
    ensures exists i, j :: 0 <= i <= j <= |s| && Trim(s) == s[i..j] &&
                           (forall k :: 0 <= k < i ==> IsTrimmable(s[k])) &&
                           (forall k :: j <= k < |s| ==> IsTrimmable(s[k]))
  {
    var t := TrimStart(s);
    var u := TrimEnd(t);
    var i := |s| - |t|;
    var j := i + |u|;
    assert u == s[i..j] && forall k :: j <= k < |s| ==> s[k] == t[k - i];
  }

  /** Trimming a string that has no trimmable ends gives it back. */
  lemma TrimOfTrimmed(s: string)
    requires s == [] || (!IsTrimmable(s[0]) && !IsTrimmable(s[|s| - 1]))
    ensures Trim(s) == s
  {
  }
}
