/** Python's str.split() without arguments, and the checksum sidecar line it reads back. */
module Words {
  import opened Manifests

  function WordLength(s: string): (n: nat)
    ensures n <= |s| && NoSpace(s[..n])
    ensures n < |s| ==> IsSpace(s[n])
  {
    if s == "" || IsSpace(s[0]) then 0
    else
      var n := WordLength(s[1..]);
      assert s[..1 + n] == [s[0]] + s[1..][..n];
      1 + n
  }

  function Split(s: string): (words: seq<string>)
    ensures forall w :: w in words ==> w != "" && NoSpace(w)
    decreases |s|
  {
    if s == "" then []
    else if IsSpace(s[0]) then Split(s[1..])
    else [s[..WordLength(s)]] + Split(s[WordLength(s)..])
  }

  lemma {:induction false} WordLengthExact(word: string, rest: string)
    requires NoSpace(word) && rest != "" && IsSpace(rest[0])
    ensures WordLength(word + rest) == |word|
  {
    if word != "" {
      assert (word + rest)[1..] == word[1..] + rest;
      WordLengthExact(word[1..], rest);
    } else {
      assert word + rest == rest;
    }
  }

  lemma SplitWord(word: string, rest: string)
    requires word != "" && NoSpace(word) && rest != "" && IsSpace(rest[0])
    ensures Split(word + rest) == [word] + Split(rest)
  {
    WordLengthExact(word, rest);
    assert (word + rest)[..|word|] == word && (word + rest)[|word|..] == rest;
  }

  lemma {:induction false} SplitSpaces(tail: string)
    ensures Split("  " + tail) == Split(tail)
  {
    assert ("  " + tail)[1..] == " " + tail && (" " + tail)[1..] == tail;
  }

  lemma SplitLast(word: string)
    requires word != "" && NoSpace(word)
    ensures Split(word + "\n") == [word]
  {
    SplitWord(word, "\n");
    assert "\n"[1..] == "";
  }

  /** The line "{digest}  {name}\n" reads back as its two parts exactly when the name has no white space. */
  lemma ChecksumLine(digest: string, name: string)
    requires digest != "" && NoSpace(digest) && name != ""
    ensures Split(digest + "  " + name + "\n") == [digest, name] <==> NoSpace(name)
  {
    var tail := name + "\n";
    assert digest + "  " + name + "\n" == digest + ("  " + tail);
    SplitWord(digest, "  " + tail);
    SplitSpaces(tail);
    hide Split;
    if NoSpace(name) {
      SplitLast(name);
    } else {
      assert name !in Split(digest + ("  " + tail));
      assert [digest, name][1] == name;
    }
  }
}
