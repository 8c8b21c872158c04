/** The order in which the audio creator (audio_creator.py) joins the
    synthesised files: the `Audio:` references of the story script when it has
    any, otherwise every `.mp3` file of the audio directory stably sorted by
    the timestamp in its name. */
module AudioOrder {
  import opened Results
  import opened Strings
  import opened Domain
  import opened ScriptFormat

  /** The longest run of digits at the end of `s`. */
  function TrailingDigits(s: string): (r: string)
    ensures AllDigits(r) && EndsWith(s, r)
    ensures |r| < |s| ==> !IsDigit(s[|s| - |r| - 1])
  {
    s[DigitRunStart(s, |s|)..]
  }

  /** Where the run of digits ending just before index `j` begins. */
  function DigitRunStart(s: string, j: nat): (k: nat)
    requires j <= |s|
    ensures k <= j
    ensures forall i :: k <= i < j ==> IsDigit(s[i])
    ensures k > 0 ==> !IsDigit(s[k - 1])
    decreases j
  {
    if j == 0 || !IsDigit(s[j - 1]) then j else DigitRunStart(s, j - 1)
  }

  /** The text before a trailing ".mp3", where `$` also matches before one
      final newline. */
  function Stem(filename: string): Option<string> {
    if EndsWith(filename, ".mp3") then Some(filename[..|filename| - 4])
    else if EndsWith(filename, ".mp3\n") then Some(filename[..|filename| - 5])
    else None
  }

  /** The `extract_timestamp` sort key: the number in a trailing
      `_<digits>.mp3`, or 0 when the name does not end that way. */
  function ExtractTimestamp(filename: string): (t: nat)
    ensures Stem(filename).None? ==> t == 0
  {
    match Stem(filename)
    case None => 0
    case Some(stem) =>
      var digits := TrailingDigits(stem);
      if digits != [] && |digits| < |stem| && stem[|stem| - |digits| - 1] == '_' then DigitsValue(digits)
      else 0
  }

  /** The digits after an underscore are exactly the trailing run, because an
      underscore is no digit. */
  lemma {:induction false} TrailingDigitsAfterUnderscore(prefix: string, digits: string)
    requires AllDigits(digits)
    ensures TrailingDigits(prefix + "_" + digits) == digits
  {
    var s := prefix + "_" + digits;
    RunStopsAtUnderscore(s, |prefix|, |s|);
    assert s[|prefix| + 1..] == digits;
  }

  /** In `s`, with an underscore at `u` and only digits after it, every run
      of digits ending past `u` begins just after it. */
  lemma {:induction false} RunStopsAtUnderscore(s: string, u: nat, j: nat)
    requires u < j <= |s| && s[u] == '_'
    requires forall i :: u < i < |s| ==> IsDigit(s[i])
    ensures DigitRunStart(s, j) == u + 1
    decreases j
  {
    if j > u + 1 {
      RunStopsAtUnderscore(s, u, j - 1);
    }
  }

  /** The file names written for synthesised segments,
      `<dir>/<name>_<timestamp>.mp3`, give back their timestamp whatever the
      directory and character name. */
  lemma {:induction false} TimestampOfAudioFilename(prefix: string, timestamp: nat)
    ensures ExtractTimestamp(prefix + "_" + NatToString(timestamp) + ".mp3") == timestamp
  {
    var digits := NatToString(timestamp);
    var name := prefix + "_" + digits + ".mp3";
    assert name[..|name| - 4] == prefix + "_" + digits;
    TrailingDigitsAfterUnderscore(prefix, digits);
    var stem := prefix + "_" + digits;
    assert stem[|stem| - |digits| - 1] == '_';
    DigitsValueOfNatToString(timestamp);
  }

  /** Any name ending in `_<digits>.mp3`, or that with one newline after it,
      gets the value of those digits. */
  lemma {:induction false} TimestampOfDigits(prefix: string, digits: string)
    requires digits != [] && AllDigits(digits)
    ensures ExtractTimestamp(prefix + "_" + digits + ".mp3") == DigitsValue(digits)
    ensures ExtractTimestamp(prefix + "_" + digits + ".mp3\n") == DigitsValue(digits)
  {
    var stem := prefix + "_" + digits;
    TrailingDigitsAfterUnderscore(prefix, digits);
    assert stem[|stem| - |digits| - 1] == '_';
    var name := stem + ".mp3";
    assert name[..|name| - 4] == stem;
    var line := stem + ".mp3\n";
    assert line[|line| - 1] == '\n';
    assert line[..|line| - 5] == stem;
  }

  /** Conversely, a positive timestamp comes only from a name ending in
      `_<digits>.mp3` (or that and a newline), and is the value of those
      digits: every other name gets 0. */
  lemma {:induction false} PositiveTimestampShape(filename: string)
    ensures ExtractTimestamp(filename) > 0 ==>
              exists prefix, digits ::
                && digits != [] && AllDigits(digits)
                && ExtractTimestamp(filename) == DigitsValue(digits)
                && (filename == prefix + "_" + digits + ".mp3" || filename == prefix + "_" + digits + ".mp3\n")
  {
    if ExtractTimestamp(filename) > 0 {
      var stem := Stem(filename).value;
      var digits := TrailingDigits(stem);
      var prefix := stem[..|stem| - |digits| - 1];
      assert stem == prefix + "_" + digits;
      if EndsWith(filename, ".mp3") {
        assert filename == stem + ".mp3";
      } else {
        assert filename == stem + ".mp3\n";
      }
    }
  }

  /** A sort key: `extract_timestamp`, or any other. */
  type SortKey = string -> nat

  /** Non-decreasing sort key: no file has a smaller key than the one
      before it. */
  predicate SortedBy(s: seq<string>, key: SortKey) {
    forall i :: 0 < i < |s| ==> key(s[i - 1]) <= key(s[i])
  }

  /** In a sorted list the first file has the least key. */
  lemma {:induction false} HeadIsLeast(s: seq<string>, key: SortKey, i: nat)
    requires SortedBy(s, key) && i < |s|
    ensures key(s[0]) <= key(s[i])
  {
    if i > 0 {
      HeadIsLeast(s, key, i - 1);
    }
  }

  /** The files with sort key `k`, in their order. */
  function WithKey(s: seq<string>, key: SortKey, k: nat): (r: seq<string>)
    ensures |r| <= |s|
  {
    if s == [] then []
    else (if key(s[0]) == k then [s[0]] else []) + WithKey(s[1..], key, k)
  }

  lemma {:induction false} WithKeyNone(s: seq<string>, key: SortKey, k: nat)
    requires forall i :: 0 <= i < |s| ==> key(s[i]) > k
    ensures WithKey(s, key, k) == []
  {
    if s != [] {
      WithKeyNone(s[1..], key, k);
    }
  }

  lemma {:induction false} WithKeyAppend(s: seq<string>, x: string, key: SortKey, k: nat)
    ensures WithKey(s + [x], key, k) == WithKey(s, key, k) + (if key(x) == k then [x] else [])
  {
    var tail := if key(x) == k then [x] else [];
    if s == [] {
      assert s + [x] == [x];
      assert [x][1..] == [];
    } else {
      var head := if key(s[0]) == k then [s[0]] else [];
      assert (s + [x])[1..] == s[1..] + [x];
      assert WithKey(s + [x], key, k) == head + WithKey(s[1..] + [x], key, k);
      WithKeyAppend(s[1..], x, key, k);
      assert head + (WithKey(s[1..], key, k) + tail) == (head + WithKey(s[1..], key, k)) + tail;
    }
  }

  /** `x` placed after every file whose key is not larger than its own. */
  function InsertBy(s: seq<string>, x: string, key: SortKey): (r: seq<string>)
    ensures multiset(r) == multiset(s) + multiset{x}
    ensures |r| == |s| + 1
    ensures r[0] == x || (s != [] && r[0] == s[0])
  {
    if s == [] then [x]
    else if key(x) < key(s[0]) then [x] + s
    else
      assert s == [s[0]] + s[1..];
      [s[0]] + InsertBy(s[1..], x, key)
  }

  /** Inserting into a sorted list keeps it sorted. */
  lemma {:induction false} InsertBySorted(s: seq<string>, x: string, key: SortKey)
    requires SortedBy(s, key)
    ensures SortedBy(InsertBy(s, x, key), key)
  {
    if s == [] {
    } else if key(x) < key(s[0]) {
      var r := [x] + s;
      assert InsertBy(s, x, key) == r;
      forall i | 0 < i < |r| ensures key(r[i - 1]) <= key(r[i]) {
        if i > 1 {
          assert r[i - 1] == s[i - 2] && r[i] == s[i - 1];
        }
      }
    } else {
      var rest := InsertBy(s[1..], x, key);
      var r := [s[0]] + rest;
      assert InsertBy(s, x, key) == r;
      InsertBySorted(s[1..], x, key);
      forall i | 0 < i < |r| ensures key(r[i - 1]) <= key(r[i]) {
        if i == 1 {
          assert rest[0] == x || rest[0] == s[1];
        } else {
          assert r[i - 1] == rest[i - 2] && r[i] == rest[i - 1];
        }
      }
    }
  }

  lemma {:induction false} WithKeyCons(y: string, s: seq<string>, key: SortKey, k: nat)
    ensures WithKey([y] + s, key, k) == (if key(y) == k then [y] else []) + WithKey(s, key, k)
  {
    assert ([y] + s)[1..] == s;
  }

  lemma {:induction false} ConcatAssoc<T>(a: seq<T>, b: seq<T>, c: seq<T>)
    ensures a + (b + c) == (a + b) + c
  {
  }

  /** Inserting keeps every key's files in order and puts `x` after the files
      that share its key. */
  lemma {:induction false} InsertByStable(s: seq<string>, x: string, key: SortKey, k: nat)
    requires SortedBy(s, key)
    ensures WithKey(InsertBy(s, x, key), key, k) == WithKey(s, key, k) + (if key(x) == k then [x] else [])
  {
    if s == [] {
      WithKeyCons(x, [], key, k);
      assert [x] + [] == [x];
    } else if key(x) < key(s[0]) {
      WithKeyCons(x, s, key, k);
      if key(x) == k {
        AboveHead(s, key, k);
      }
    } else {
      var rest := InsertBy(s[1..], x, key);
      InsertByStable(s[1..], x, key, k);
      WithKeyCons(s[0], rest, key, k);
      WithKeyCons(s[0], s[1..], key, k);
      assert s == [s[0]] + s[1..];
      ConcatAssoc(if key(s[0]) == k then [s[0]] else [], WithKey(s[1..], key, k), if key(x) == k then [x] else []);
    }
  }

  /** A stable insertion sort: the files ordered by key, equal keys in their
      original order. */
  function SortBy(files: seq<string>, key: SortKey): (r: seq<string>)
    ensures SortedBy(r, key)
    ensures multiset(r) == multiset(files)
  {
    if files == [] then []
    else
      var n := |files| - 1;
      assert files == files[..n] + [files[n]];
      var sorted := SortBy(files[..n], key);
      InsertBySorted(sorted, files[n], key);
      InsertBy(sorted, files[n], key)
  }

  /** The sort is stable: the files of each key keep their listing order. */
  lemma {:induction false} SortByStable(files: seq<string>, key: SortKey, k: nat)
    ensures WithKey(SortBy(files, key), key, k) == WithKey(files, key, k)
  {
    if files != [] {
      var n := |files| - 1;
      var init, last := files[..n], files[n];
      assert files == init + [last];
      assert SortBy(files, key) == InsertBy(SortBy(init, key), last, key);
      SortByStable(init, key, k);
      InsertByStable(SortBy(init, key), last, key, k);
      WithKeyAppend(init, last, key, k);
    }
  }

  /** Two sorted lists with the same files per key start with the same file. */
  lemma {:induction false} SameHead(a: seq<string>, b: seq<string>, key: SortKey)
    requires a != [] && b != [] && SortedBy(a, key) && SortedBy(b, key)
    requires forall k :: WithKey(a, key, k) == WithKey(b, key, k)
    ensures a[0] == b[0]
  {
    if key(a[0]) < key(b[0]) {
      AboveHead(b, key, key(a[0]));
      HeadClassNonEmpty(a, b, key);
    } else if key(b[0]) < key(a[0]) {
      AboveHead(a, key, key(b[0]));
      HeadClassNonEmpty(b, a, key);
    } else {
      WithKeyHead(a, key);
      WithKeyHead(b, key);
      assert WithKey(a, key, key(a[0])) == WithKey(b, key, key(a[0]));
    }
  }

  /** In a sorted list no file has a key below the first file's. */
  lemma {:induction false} AboveHead(s: seq<string>, key: SortKey, k: nat)
    requires s != [] && SortedBy(s, key) && k < key(s[0])
    ensures WithKey(s, key, k) == []
  {
    forall i | 0 <= i < |s| ensures key(s[i]) > k {
      HeadIsLeast(s, key, i);
    }
    WithKeyNone(s, key, k);
  }

  /** The first file's key has files in the other list too. */
  lemma {:induction false} HeadClassNonEmpty(a: seq<string>, b: seq<string>, key: SortKey)
    requires a != []
    requires forall k :: WithKey(a, key, k) == WithKey(b, key, k)
    ensures WithKey(b, key, key(a[0])) != []
  {
    WithKeyHead(a, key);
    assert WithKey(a, key, key(a[0])) == WithKey(b, key, key(a[0]));
  }

  /** Dropping a common first file keeps the files per key equal. */
  lemma {:induction false} SameTails(a: seq<string>, b: seq<string>, key: SortKey, k: nat)
    requires a != [] && b != [] && a[0] == b[0]
    requires WithKey(a, key, k) == WithKey(b, key, k)
    ensures WithKey(a[1..], key, k) == WithKey(b[1..], key, k)
  {
    var x, y := WithKey(a[1..], key, k), WithKey(b[1..], key, k);
    assert WithKey(a, key, k) == (if key(a[0]) == k then [a[0]] else []) + x;
    assert WithKey(b, key, k) == (if key(a[0]) == k then [b[0]] else []) + y;
    if key(a[0]) == k {
      assert ([a[0]] + x)[1..] == x;
      assert ([b[0]] + y)[1..] == y;
    } else {
      assert [] + x == x && [] + y == y;
    }
  }

  /** Both lists are empty or neither is. */
  lemma {:induction false} SameEmptiness(a: seq<string>, b: seq<string>, key: SortKey)
    requires forall k :: WithKey(a, key, k) == WithKey(b, key, k)
    ensures a == [] <==> b == []
  {
    if a != [] {
      WithKeyHead(a, key);
      assert WithKey(a, key, key(a[0])) == WithKey(b, key, key(a[0]));
    }
    if b != [] {
      WithKeyHead(b, key);
      assert WithKey(a, key, key(b[0])) == WithKey(b, key, key(b[0]));
    }
  }

  /** Sorted by a key and each key's files in the listing order: there is only
      one such arrangement, so the result is exactly that of Python's stable
      `list.sort`. */
  lemma {:induction false} StableSortUnique(a: seq<string>, b: seq<string>, key: SortKey)
    requires SortedBy(a, key) && SortedBy(b, key)
    requires forall k :: WithKey(a, key, k) == WithKey(b, key, k)
    ensures a == b
    decreases |a|
  {
    SameEmptiness(a, b, key);
    if a != [] {
      SameHead(a, b, key);
      forall k: nat ensures WithKey(a[1..], key, k) == WithKey(b[1..], key, k) {
        SameTails(a, b, key, k);
      }
      StableSortUnique(a[1..], b[1..], key);
      assert a == [a[0]] + a[1..] && b == [b[0]] + b[1..];
    }
  }

  lemma {:induction false} WithKeyHead(s: seq<string>, key: SortKey)
    requires s != []
    ensures WithKey(s, key, key(s[0])) != [] && WithKey(s, key, key(s[0]))[0] == s[0]
  {
  }

  /** The fallback ordering: the directory listing sorted by timestamp. */
  function SortByTimestamp(files: seq<string>): seq<string> {
    SortBy(files, ExtractTimestamp)
  }

  /** How the story script could be read: absent, unreadable (any exception
      while reading), or its text. */
  datatype ScriptFile = Missing | Unreadable | Text(content: string)

  /** The paths that exist, in their order. */
  function Existing(paths: seq<string>, exists_: set<string>): (r: seq<string>)
    ensures forall p :: p in r <==> p in paths && p in exists_
  {
    if paths == [] then []
    else
      var n := |paths| - 1;
      assert forall p :: p in paths <==> p in paths[..n] || p == paths[n];
      Existing(paths[..n], exists_) + (if paths[n] in exists_ then [paths[n]] else [])
  }

  lemma {:induction false} ExistingAll(paths: seq<string>, exists_: set<string>)
    requires forall p :: p in paths ==> p in exists_
    ensures Existing(paths, exists_) == paths
  {
    if paths != [] {
      var n := |paths| - 1;
      var init := paths[..n];
      assert paths == init + [paths[n]];
      assert paths[n] in exists_;
      forall p | p in init ensures p in exists_ {
        assert p in paths;
      }
      ExistingAll(init, exists_);
    }
  }

  /** `get_order_from_script`: every `Audio: audio_output/...` reference of
      the script, read in text mode, that names an existing file, in script
      order; nothing when the script is absent or cannot be read. */
  method GetOrderFromScript(script: ScriptFile, exists_: set<string>) returns (files: seq<string>)
    ensures script.Text? ==> files == Existing(FindAudioPaths(TextModeRead(script.content)), exists_)
    ensures !script.Text? ==> files == []
  {
    if !script.Text? {
      return [];
    }
    var matches := FindAudioPaths(TextModeRead(script.content));
    files := [];
    for i := 0 to |matches|
      invariant files == Existing(matches[..i], exists_)
    {
      assert matches[..i + 1][..i] == matches[..i];
      if matches[i] in exists_ {
        files := files + [matches[i]];
      }
    }
    assert matches[..|matches|] == matches;
  }

  /** Reading back, in text mode, a script written for segments whose
      references all exist gives exactly their audio files, in segment
      order. */
  lemma {:induction false} ScriptOrderRoundTrip(segments: seq<Segment>, exists_: set<string>)
    requires forall k :: 0 <= k < |segments| ==> Scriptable(segments[k])
    requires forall f :: f in AudioFilesOf(segments) ==> f in exists_
    ensures Existing(FindAudioPaths(TextModeRead(ScriptText(segments))), exists_) == AudioFilesOf(segments)
  {
    ScriptRoundTrip(segments);
    ExistingAll(AudioFilesOf(segments), exists_);
  }

  /** `get_audio_files_in_order`: the script's order when it yields any file;
      otherwise the `.mp3` files of the directory listing sorted by
      timestamp. */
  method GetAudioFilesInOrder(script: ScriptFile, exists_: set<string>, listing: seq<string>)
    returns (files: seq<string>)
    ensures script.Text? && Existing(FindAudioPaths(TextModeRead(script.content)), exists_) != [] ==>
              files == Existing(FindAudioPaths(TextModeRead(script.content)), exists_)
    ensures (!script.Text? || Existing(FindAudioPaths(TextModeRead(script.content)), exists_) == []) ==>
              && files == SortByTimestamp(listing)
              && SortedBy(files, ExtractTimestamp)
              && multiset(files) == multiset(listing)
              && forall k :: WithKey(files, ExtractTimestamp, k) == WithKey(listing, ExtractTimestamp, k)
  {
    var scriptOrder := GetOrderFromScript(script, exists_);
    if scriptOrder != [] {
      return scriptOrder;
    }
    if listing == [] {
      return [];
    }
    files := SortByTimestamp(listing);
    forall k ensures WithKey(files, ExtractTimestamp, k) == WithKey(listing, ExtractTimestamp, k) {
      SortByStable(listing, ExtractTimestamp, k);
    }
  }
}
