/** The two user-facing error types.

    `LoadException` keeps a title, a message and the string `what()`
    exposes. `what()` hands out the stored string's `c_str()`, so a reader
    of it sees the stored string only up to its first NUL character.
    `InitException` has the same shape; its implementation file is not part
    of this model, so it appears here only as its title and message.
 */
module Exceptions {

  const NUL: char := 0 as char

  /** What a C reader sees of a `std::string` through `c_str()`: the
      characters before the first NUL. */
  function CString(s: string): (r: string)
    ensures |r| <= |s| && r == s[..|r|]
    ensures NUL !in r
    ensures |r| < |s| ==> s[|r|] == NUL
    ensures NUL !in s ==> r == s
    decreases |s|
  {
    if |s| == 0 || s[0] == NUL then "" else [s[0]] + CString(s[1..])
  }

  /** The private fields of a `LoadException`. */
  datatype LoadException = LoadException(title: string, message: string, whatString: string)

  /** The two-argument constructor: `whatString` is the title, a colon and a
      space, and the message, written through a string stream. */
  function MakeLoadException(title: string, message: string): (e: LoadException)
    ensures e.title == title && e.message == message
    ensures |e.whatString| == |title| + |message| + 2
    ensures e.whatString[..|title|] == title
    ensures e.whatString[|title|..|title| + 2] == ": "
    ensures e.whatString[|title| + 2..] == message
  {
    LoadException(title, message, title + ": " + message)
  }

  /** The one-argument constructor: the message doubles as title and text. */
  function LoadExceptionFrom(message: string): (e: LoadException)
    ensures e.title == message && e.message == message && e.whatString == message
  {
    LoadException(message, message, message)
  }

  /** `what()`: the stored string as a C reader sees it. */
  function What(e: LoadException): (r: string)
    ensures |r| <= |e.whatString| && r == e.whatString[..|r|] && NUL !in r
    ensures |r| < |e.whatString| ==> e.whatString[|r|] == NUL
    ensures NUL !in e.whatString ==> r == e.whatString
  {
    CString(e.whatString)
  }

  /** `getTitle()`. */
  function GetTitle(e: LoadException): (r: string)
    ensures r == e.title
  {
    e.title
  }

  /** `getMessage()`. */
  function GetMessage(e: LoadException): (r: string)
    ensures r == e.message
  {
    e.message
  }

  /** The accessors give back exactly what was passed to either
      constructor. */
  lemma AccessorsReturnArguments(title: string, message: string)
    ensures GetTitle(MakeLoadException(title, message)) == title
    ensures GetMessage(MakeLoadException(title, message)) == message
    ensures GetTitle(LoadExceptionFrom(message)) == message
    ensures GetMessage(LoadExceptionFrom(message)) == message
  {
  }

  /** With NUL-free arguments, `what()` of the two-argument form is
      "title: message", two characters longer than its parts. */
  lemma WhatJoinsTitleAndMessage(title: string, message: string)
    requires NUL !in title && NUL !in message
    ensures What(MakeLoadException(title, message)) == title + ": " + message
    ensures |What(MakeLoadException(title, message))| == |title| + |message| + 2
  {
    var w := title + ": " + message;
    assert forall i :: 0 <= i < |w| ==> w[i] != NUL by {
      forall i | 0 <= i < |w|
        ensures w[i] != NUL
      {
        if i < |title| {
          assert w[i] == title[i];
        } else if i >= |title| + 2 {
          assert w[i] == message[i - |title| - 2];
        }
      }
    }
  }

  /** Knowing the title, the message can be read back off `what()`. */
  lemma MessageRecoverable(title: string, message: string)
    requires NUL !in title && NUL !in message
    ensures What(MakeLoadException(title, message))[|title| + 2..] == message
  {
    WhatJoinsTitleAndMessage(title, message);
  }

  /** A NUL inside the title cuts `what()` short: the reader sees a proper
      prefix of the title and none of the message. */
  lemma NulInTitleTruncatesWhat(title: string, message: string, k: nat)
    requires k < |title| && title[k] == NUL
    ensures |What(MakeLoadException(title, message))| <= k
    ensures What(MakeLoadException(title, message)) == title[..|What(MakeLoadException(title, message))|]
  {
    var w := title + ": " + message;
    var r := CString(w);
    assert w[k] == NUL;
    assert r == w[..|r|];
    assert w[..|r|] == title[..|r|];
  }

  /** The one-argument form exposes its message unchanged as title, message
      and (when NUL-free) `what()`. */
  lemma SingleArgumentWhat(message: string)
    requires NUL !in message
    ensures What(LoadExceptionFrom(message)) == message
    ensures GetTitle(LoadExceptionFrom(message)) == What(LoadExceptionFrom(message))
  {
  }

  /** An `InitException`: a dialog title and a detail message. */
  datatype InitException = InitException(title: string, message: string)
}
