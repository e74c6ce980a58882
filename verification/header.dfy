/**
 * The initials in the header's avatar: from the user's name when the
 * session has one, else from the email address, else a fixed letter.
 */
module Header {
  import opened Wrappers
  import opened Text

  /** The letter shown with neither a name nor an email address. */
  const Anonymous: string := "U"

  /** The first character of each part; an empty part contributes nothing. */
  function FirstChars(parts: seq<string>): (r: string)
    ensures |r| <= |parts|
    ensures (forall k :: 0 <= k < |parts| ==> parts[k] != "") ==> |r| == |parts| && forall k :: 0 <= k < |parts| ==> r[k] == parts[k][0]
    ensures (forall k :: 0 <= k < |parts| ==> parts[k] == "") ==> r == ""
  {
    if |parts| == 0 then ""
    else
      var rest := FirstChars(parts[1..]);
      assert forall k :: 0 < k < |parts| ==> parts[k] == parts[1..][k - 1];
      (if parts[0] == "" then "" else [parts[0][0]]) + rest
  }

  /**
   * The avatar's initials: the upper-cased first letters of the
   * space-separated parts of a non-empty name; otherwise the upper-cased
   * first character of a non-empty email address; otherwise `U`.
   */
  function Initials(name: Option<string>, email: Option<string>): (r: string)
    ensures Truthy(name) ==> |r| <= |Split(name.value, ' ')|
    ensures !Truthy(name) && Truthy(email) ==> r == [UpperChar(email.value[0])]
    ensures !Truthy(name) && !Truthy(email) ==> r == Anonymous
  {
    if Truthy(name) then Upper(FirstChars(Split(name.value, ' ')))
    else if Truthy(email) then Upper([email.value[0]])
    else Anonymous
  }

  /** A name of words separated by single spaces gives one upper-cased initial per word. */
  lemma InitialsOfWords(words: seq<string>, email: Option<string>)
    requires |words| >= 1
    requires forall k :: 0 <= k < |words| ==> words[k] != "" && ' ' !in words[k]
    ensures var r := Initials(Some(Join(words, ' ')), email);
      |r| == |words| && forall k :: 0 <= k < |words| ==> r[k] == UpperChar(words[k][0])
  {
    var name := Join(words, ' ');
    SplitJoin(words, ' ');
    assert name != "" by {
      assert |words[0]| > 0;
      JoinStartsWithFirst(words, ' ');
    }
  }

  /** A join starts with its first part. */
  lemma JoinStartsWithFirst(parts: seq<string>, sep: char)
    requires |parts| >= 1
    ensures |Join(parts, sep)| >= |parts[0]| && Join(parts, sep)[..|parts[0]|] == parts[0]
  {
    if |parts| > 1 {
      assert Join(parts, sep) == parts[0] + ([sep] + Join(parts[1..], sep));
    }
  }

  /** A name of spaces alone is still a name: it yields no initials and no fallback letter. */
  lemma SpacesOnlyName(n: nat, email: Option<string>)
    requires n >= 1
    ensures Initials(Some(seq(n, _ => ' ')), email) == ""
  {
    var name: string := seq(n, _ => ' ');
    JoinSplit(name, ' ');
    var parts := Split(name, ' ');
    forall k | 0 <= k < |parts|
      ensures parts[k] == ""
    {
      PartsOfSpaces(name, k);
    }
  }

  /** Every part of a string of spaces split at spaces is empty. */
  lemma {:induction false} PartsOfSpaces(s: string, k: nat)
    requires forall i :: 0 <= i < |s| ==> s[i] == ' '
    requires k < |Split(s, ' ')|
    ensures Split(s, ' ')[k] == ""
    decreases |s|
  {
    match IndexOf(s, ' ')
    case None =>
    case Some(i) =>
      assert i == 0;
      if k > 0 {
        PartsOfSpaces(s[1..], k - 1);
      }
  }
}
