/** Peer search results and the scoring primitives shared by the matcher and manual searches. */
module SearchResults {

  datatype SearchResult = SearchResult(
    username: string, filename: string, size: int, bitRate: int,
    hasFreeUploadSlot: bool, queueLength: int, uploadSpeed: int,
    duration: int, sampleRate: int, bitDepth: int, variableBitRate: bool)

  /**
   The library functions a release is grouped and labelled by. They stay parameters: every result
   holds whatever they compute, hash collisions of `groupId` included.
    - `dirOf`: the slash-separated directory of a peer path (matcher.ReleaseDir)
    - `extOf`: its lowercased extension, the leading dot included (matcher.ExtOf)
    - `baseOf`: the last element of a peer path, its backslashes read as slashes
    - `groupId`: the hash of (username, directory) a group is identified by
  */
  datatype Lib = Lib(dirOf: string -> string, extOf: string -> string, baseOf: string -> string,
                     groupId: (string, string) -> int)

  function LowerChar(c: char): char {
    if 'A' <= c <= 'Z' then c - 'A' + 'a' else c
  }

  function Lower(s: string): string {
    seq(|s|, i requires 0 <= i < |s| => LowerChar(s[i]))
  }

  predicate HasSuffix(s: string, suffix: string) {
    |suffix| <= |s| && s[|s| - |suffix|..] == suffix
  }

  function FormatScore(filename: string): real {
    var lower := Lower(filename);
    if HasSuffix(lower, ".flac") then 1.0
    else if HasSuffix(lower, ".mp3") then 0.5
    else 0.2
  }

  function ReliabilityScore(hasFreeUploadSlot: bool, queueLength: int): real {
    (if hasFreeUploadSlot then 0.7 else 0.0) + (if queueLength == 0 then 0.3 else 0.0)
  }
}
