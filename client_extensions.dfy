/** AudioTranscriptionClientExtensions (the file at the root of the abstractions project): the
    convenience overloads over a client, the media type derived from a file name, and the
    enumerable adapters they use. A client is a function from the chunk sequence and the options
    to what it returns. */
module ClientExtensions {
  import opened Wrappers
  import opened Text
  import opened Audio
  import opened ByteStreams
  import opened StreamExtensions
  import opened Contract

  /** The characters that separate directories in a path ('\' and '/'). */
  predicate IsDirectorySeparator(c: char)
  {
    c == '/' || c == '\\'
  }

  /** No '.' and no separator. */
  predicate PlainName(s: string)
  {
    forall k :: 0 <= k < |s| ==> s[k] != '.' && !IsDirectorySeparator(s[k])
  }

  /** Path.GetExtension, scanning back from index i: the text from the last '.' to the end when
      that '.' comes after the last separator and is not the last character, otherwise "". */
  function ExtensionScan(path: string, i: nat): string
    requires i <= |path|
    decreases i
  {
    if i == 0 then ""
    else if path[i - 1] == '.' then (if i == |path| then "" else path[i - 1..])
    else if IsDirectorySeparator(path[i - 1]) then ""
    else ExtensionScan(path, i - 1)
  }

  /** Path.GetExtension: "" or a '.' followed by a non-empty plain name, ending the path. */
  function GetExtension(path: string): (r: string)
    ensures r == "" || (2 <= |r| <= |path| && r[0] == '.' && PlainName(r[1..]) && r == path[|path| - |r|..])
  {
    ExtensionScanShape(path, |path|);
    ExtensionScan(path, |path|)
  }

  /** An extension is "" or a '.' followed by a non-empty plain name, and it ends the path. */
  lemma {:induction false} ExtensionScanShape(path: string, i: nat)
    requires i <= |path| && PlainName(path[i..])
    ensures var r := ExtensionScan(path, i);
            r == "" || (2 <= |r| <= |path| && r[0] == '.' && PlainName(r[1..]) && r == path[|path| - |r|..])
    decreases i
  {
    if i > 0 && path[i - 1] != '.' && !IsDirectorySeparator(path[i - 1]) {
      assert path[i - 1..] == [path[i - 1]] + path[i..];
      ExtensionScanShape(path, i - 1);
    } else if i > 0 && path[i - 1] == '.' && i < |path| {
      assert path[i - 1..][1..] == path[i..];
    }
  }

  /** A path ending in '.' followed by a plain name has that '.' and name as its extension. */
  lemma ExtensionOfName(stem: string, name: string)
    requires name != "" && PlainName(name)
    ensures GetExtension(stem + "." + name) == "." + name
  {
    var path := stem + "." + name;
    ExtensionScanSkips(path, |path|, |stem| + 1);
    assert path[|stem|..] == "." + name;
  }

  /** Scanning back over a plain tail reaches the character just before it. */
  lemma {:induction false} ExtensionScanSkips(path: string, i: nat, j: nat)
    requires 0 < j <= i <= |path| && PlainName(path[j..i])
    ensures ExtensionScan(path, i) == ExtensionScan(path, j)
    decreases i - j
  {
    if i > j {
      assert path[i - 1] == path[j..i][i - 1 - j];
      assert path[j..i - 1] == path[j..i][..i - 1 - j];
      ExtensionScanSkips(path, i - 1, j);
    }
  }

  /** A path ending in '.' has no extension. */
  lemma ExtensionOfTrailingDot(path: string)
    requires path != [] && path[|path| - 1] == '.'
    ensures GetExtension(path) == ""
  {
  }

  /** A path whose last component has no '.' has no extension. */
  lemma ExtensionWithoutDot(dir: string, name: string)
    requires dir == "" || IsDirectorySeparator(dir[|dir| - 1])
    requires PlainName(name)
    ensures GetExtension(dir + name) == ""
  {
    var path := dir + name;
    assert path[|dir|..] == name;
    if |dir| > 0 {
      ExtensionScanSkips(path, |path|, |dir|);
    } else if |name| > 0 {
      ExtensionScanSkips(path, |path|, 1);
      assert path[0] == name[0];
    }
  }

  /** string.TrimStart('.'): the text after the leading dots. */
  function TrimStartDots(s: string): (r: string)
    ensures |r| <= |s| && r == s[|s| - |r|..]
    ensures r == "" || r[0] != '.'
    ensures forall k :: 0 <= k < |s| - |r| ==> s[k] == '.'
  {
    if s != "" && s[0] == '.' then TrimStartDots(s[1..]) else s
  }

  /** ToMediaType(fileName): null for a null or white-space name, null when the extension
      without its leading dots is empty or white space, and "audio/" + that text otherwise. */
  function ToMediaType(fileName: Option<string>): (r: Option<string>)
    ensures IsNullOrWhiteSpace(fileName) ==> r.None?
    ensures r.Some? ==> 6 < |r.value| && r.value[..6] == "audio/" && r.value[6] != '.'
  {
    if IsNullOrWhiteSpace(fileName) then None
    else
      var extension := TrimStartDots(GetExtension(fileName.value));
      if IsNullOrWhiteSpace(Some(extension)) then None else Some("audio/" + extension)
  }

  /** The media type of a file name is "audio/" followed by the plain name after the last '.',
      exactly when the name is not blank and has an extension that is not blank. */
  lemma ToMediaTypeMeans(fileName: Option<string>)
    ensures ToMediaType(fileName).Some? <==>
              !IsNullOrWhiteSpace(fileName) && GetExtension(fileName.value) != ""
              && !IsNullOrWhiteSpace(Some(GetExtension(fileName.value)[1..]))
    ensures ToMediaType(fileName).Some? ==>
              var x := GetExtension(fileName.value)[1..];
              ToMediaType(fileName).value == "audio/" + x && x != "" && PlainName(x)
              && |x| < |fileName.value| && fileName.value == fileName.value[..|fileName.value| - |x| - 1] + "." + x
  {
    if fileName.Some? {
      var s := fileName.value;
      var e := GetExtension(s);
      if e != "" {
        DottedNameTrims(e);
        SplitAtExtension(s, e);
      }
    }
  }

  /** A '.' followed by a plain name loses exactly its one dot to TrimStart('.'). */
  lemma DottedNameTrims(e: string)
    requires 2 <= |e| && e[0] == '.' && PlainName(e[1..])
    ensures TrimStartDots(e) == e[1..]
  {
    assert e[1..][0] != '.';
  }

  /** A path ending in a dotted extension is what precedes it, a '.', and the rest. */
  lemma SplitAtExtension(s: string, e: string)
    requires 2 <= |e| <= |s| && e[0] == '.' && e == s[|s| - |e|..]
    ensures s == s[..|s| - (|e| - 1) - 1] + "." + e[1..]
  {
    assert e == "." + e[1..];
    assert s == s[..|s| - |e|] + s[|s| - |e|..];
  }

  /** A file name stem.name, the name plain and not blank, has media type "audio/name". */
  lemma ToMediaTypeOfName(stem: string, name: string)
    requires name != "" && PlainName(name) && !IsNullOrWhiteSpace(Some(name))
    ensures ToMediaType(Some(stem + "." + name)) == Some("audio/" + name)
  {
    ExtensionOfName(stem, name);
    var path := stem + "." + name;
    assert path[|stem|] == '.' && !IsWhiteSpace(path[|stem|]);
    assert ("." + name)[1..] == name;
    DottedNameTrims("." + name);
  }

  /** "microphone.wav" gives "audio/wav". */
  lemma ToMediaTypeOfWav(fileName: string, stem: string, name: string)
    requires stem == "microphone" && name == "wav" && fileName == stem + "." + name
    ensures ToMediaType(Some(fileName)) == Some("audio/wav")
  {
    assert !IsWhiteSpace(name[0]);
    ToMediaTypeOfName(stem, name);
    assert "audio/" + name == "audio/wav";
  }

  /** A name without an extension, or ending in a dot, gives null. */
  lemma ToMediaTypeWithoutExtension(name: string, dotted: string)
    requires name == "microphone" && dotted == "microphone."
    ensures ToMediaType(Some(name)) == None
    ensures ToMediaType(Some(dotted)) == None
  {
    ExtensionWithoutDot("", name);
    assert "" + name == name;
    ExtensionOfTrailingDot(dotted);
  }

  /** ToAsyncEnumerable<T>(IEnumerable<T>): an async sequence that yields the items one by one. */
  function ToAsyncEnumerable<T>(source: seq<T>): (r: seq<T>)
    ensures |r| == |source|
    ensures forall i :: 0 <= i < |source| ==> r[i] == source[i]
  {
    if source == [] then [] else [source[0]] + ToAsyncEnumerable(source[1..])
  }

  /** TranscribeAsync(client, audioContent, options): the client gets the one-chunk sequence and
      the options as given. */
  function TranscribeContent<R>(client: (seq<AudioContent>, Option<TranscriptionOptions>) -> R,
                                audioContent: AudioContent, options: Option<TranscriptionOptions>): (r: R)
    ensures r == client([audioContent], options)
  {
    var audioContents := [audioContent];
    var asyncContents := ToAsyncEnumerable(audioContents);
    assert asyncContents == audioContents;
    client(asyncContents, options)
  }

  /** TranscribeAsync(client, audioStream, options): the client gets the stream's 4096-byte
      chunks, each tagged with the media type of options?.SourceFileName, and the options as
      given. */
  method TranscribeStream<R>(client: (seq<AudioContent>, Option<TranscriptionOptions>) -> R,
                             audioStream: MemoryStream, options: Option<TranscriptionOptions>) returns (r: R)
    modifies audioStream
    ensures r == client(BlockChunks(audioStream.data, old(audioStream.position),
                                    ToMediaType(SourceFileNameOf(options)), Zeros()), options)
  {
    var chunks := StreamExtensions.ToAsyncEnumerable(audioStream, ToMediaType(SourceFileNameOf(options)));
    r := client(chunks, options);
  }

  /** TranscribeStreamingAsync(client, audioStream, options): as TranscribeStream, for the
      streaming call. */
  method TranscribeStreamingStream<U>(client: (seq<AudioContent>, Option<TranscriptionOptions>) -> seq<U>,
                                      audioStream: MemoryStream, options: Option<TranscriptionOptions>) returns (r: seq<U>)
    modifies audioStream
    ensures r == client(BlockChunks(audioStream.data, old(audioStream.position),
                                    ToMediaType(SourceFileNameOf(options)), Zeros()), options)
  {
    var chunks := StreamExtensions.ToAsyncEnumerable(audioStream, ToMediaType(SourceFileNameOf(options)));
    r := client(chunks, options);
  }
}
