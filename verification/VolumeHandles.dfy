/** The text encodings of the collectors: splitting a volume handle on dashes, and the two
    composite keys "array-rest" and "volume=array". */
module VolumeHandles {
  import opened Collections

  /** Splitting on a one-character separator; an empty text has one empty part. */
  function Split(s: string, sep: char): (parts: seq<string>)
    ensures |parts| >= 1
    ensures forall i :: 0 <= i < |parts| ==> sep !in parts[i]
    ensures Join(parts, sep) == s
  {
    if s == "" then [""]
    else
      var rest := Split(s[1..], sep);
      if s[0] == sep then [""] + rest
      else
        var parts := [[s[0]] + rest[0]] + rest[1..];
        assert |rest| > 1 ==> parts[1..] == rest[1..];
        parts
  }

  function Join(parts: seq<string>, sep: char): string
    requires |parts| >= 1
  {
    if |parts| == 1 then parts[0] else parts[0] + [sep] + Join(parts[1..], sep)
  }

  lemma {:induction false} SplitPlain(s: string, sep: char)
    requires sep !in s
    ensures Split(s, sep) == [s]
  {
    if s != "" {
      SplitPlain(s[1..], sep);
    }
  }

  lemma {:induction false} SplitConcat(x: string, y: string, sep: char)
    ensures Split(x + [sep] + y, sep) == Split(x, sep) + Split(y, sep)
  {
    var s := x + [sep] + y;
    if x == "" {
      assert s[1..] == y;
    } else {
      assert s[1..] == x[1..] + [sep] + y;
      SplitConcat(x[1..], y, sep);
    }
  }

  /** Splitting is the one inverse of joining separator-free parts. */
  lemma {:induction false} SplitJoin(parts: seq<string>, sep: char)
    requires |parts| >= 1
    requires forall i :: 0 <= i < |parts| ==> sep !in parts[i]
    ensures Split(Join(parts, sep), sep) == parts
  {
    SplitPlain(parts[0], sep);
    if |parts| > 1 {
      SplitJoin(parts[1..], sep);
      SplitConcat(parts[0], Join(parts[1..], sep), sep);
    }
  }

  datatype Ids = Ids(arrayId: string, volumeId: string)

  /** The array and volume a handle names: its last two parts, when it has at least two. */
  function ParseHandle(handle: string): (ids: Option<Ids>)
    ensures ids.Some? ==> '-' !in ids.value.arrayId && '-' !in ids.value.volumeId
  {
    var parts := Split(handle, '-');
    if |parts| < 2 then None else Some(Ids(parts[|parts| - 2], parts[|parts| - 1]))
  }

  /** The volume ID as the capacity collector takes it, on any handle. */
  function VolumeIdOf(handle: string): string {
    var parts := Split(handle, '-');
    parts[|parts| - 1]
  }

  /** The texts that end in "array-volume", with nothing or "prefix-" before it. */
  ghost predicate EndsWithIds(handle: string, arrayId: string, volumeId: string) {
    handle == arrayId + "-" + volumeId || exists prefix :: handle == prefix + "-" + arrayId + "-" + volumeId
  }

  lemma ParsePlain(arrayId: string, volumeId: string)
    requires '-' !in arrayId && '-' !in volumeId
    ensures Split(arrayId + "-" + volumeId, '-') == [arrayId, volumeId]
    ensures ParseHandle(arrayId + "-" + volumeId) == Some(Ids(arrayId, volumeId))
  {
    SplitPlain(arrayId, '-');
    SplitPlain(volumeId, '-');
    SplitConcat(arrayId, volumeId, '-');
  }

  lemma ParsePrefixed(prefix: string, arrayId: string, volumeId: string)
    requires '-' !in arrayId && '-' !in volumeId
    ensures ParseHandle(prefix + "-" + arrayId + "-" + volumeId) == Some(Ids(arrayId, volumeId))
  {
    var tail := arrayId + "-" + volumeId;
    ParsePlain(arrayId, volumeId);
    SplitConcat(prefix, tail, '-');
    assert prefix + ['-'] + tail == prefix + "-" + arrayId + "-" + volumeId;
  }

  lemma ParsedEndsWithIds(handle: string)
    requires ParseHandle(handle).Some?
    ensures var ids := ParseHandle(handle).value; EndsWithIds(handle, ids.arrayId, ids.volumeId)
  {
    var parts, ids := Split(handle, '-'), ParseHandle(handle).value;
    JoinLastTwo(parts, '-');
    if |parts| > 2 {
      var prefix := Join(parts[..|parts| - 2], '-');
      assert prefix + ['-'] + (ids.arrayId + ['-'] + ids.volumeId) == prefix + "-" + ids.arrayId + "-" + ids.volumeId;
    }
  }

  /** A handle yields (array, volume) exactly when both are dash-free and the handle is
      "array-volume" or "prefix-array-volume", whatever dashes the prefix holds. */
  lemma ParseHandleExact(handle: string, arrayId: string, volumeId: string)
    ensures ParseHandle(handle) == Some(Ids(arrayId, volumeId)) <==>
            '-' !in arrayId && '-' !in volumeId && EndsWithIds(handle, arrayId, volumeId)
  {
    if ParseHandle(handle) == Some(Ids(arrayId, volumeId)) {
      ParsedEndsWithIds(handle);
    }
    if '-' !in arrayId && '-' !in volumeId && EndsWithIds(handle, arrayId, volumeId) {
      ParsePlain(arrayId, volumeId);
      if handle != arrayId + "-" + volumeId {
        var prefix :| handle == prefix + "-" + arrayId + "-" + volumeId;
        ParsePrefixed(prefix, arrayId, volumeId);
      }
    }
  }

  lemma {:induction false} JoinLastTwo(parts: seq<string>, sep: char)
    requires |parts| >= 2
    ensures var n := |parts|; var tail := parts[n - 2] + [sep] + parts[n - 1];
            Join(parts, sep) == if n == 2 then tail else Join(parts[..n - 2], sep) + [sep] + tail
  {
    var n := |parts|;
    if n == 3 {
      assert Join(parts[1..], sep) == parts[1] + [sep] + parts[2];
    } else if n > 3 {
      JoinLastTwo(parts[1..], sep);
      assert parts[1..][..n - 3] == parts[..n - 2][1..];
    }
  }

  /** Two keys "x<sep>y" with separator-free first halves are equal only for equal pairs. */
  lemma {:induction false} PrefixKeyInjective(sep: char, x: string, y: string, x': string, y': string)
    requires sep !in x && sep !in x'
    ensures x + [sep] + y == x' + [sep] + y' <==> x == x' && y == y'
  {
    var s, s' := x + [sep] + y, x' + [sep] + y';
    if s == s' {
      SplitPlain(x, sep);
      SplitPlain(x', sep);
      SplitConcat(x, y, sep);
      SplitConcat(x', y', sep);
      assert Split(s, sep)[0] == x && Split(s', sep)[0] == x';
      assert s[|x| + 1..] == y && s'[|x'| + 1..] == y';
    }
  }

  /** The capacity collector's key of a volume, a storage group or an SRP on an array. */
  function DashKey(arrayId: string, name: string): string { arrayId + "-" + name }

  /** The performance collector's key of a volume on an array. */
  function VolumeKey(volumeId: string, arrayId: string): string { volumeId + "=" + arrayId }

  /** Dash-free array IDs make the capacity keys injective; a dash in one breaks them. */
  lemma DashKeyInjective(a: string, n: string, a': string, n': string)
    requires '-' !in a && '-' !in a'
    ensures DashKey(a, n) == DashKey(a', n') <==> a == a' && n == n'
  {
    PrefixKeyInjective('-', a, n, a', n');
  }

  lemma VolumeKeyInjective(v: string, a: string, v': string, a': string)
    requires '=' !in v && '=' !in v'
    ensures VolumeKey(v, a) == VolumeKey(v', a') <==> v == v' && a == a'
  {
    PrefixKeyInjective('=', v, a, v', a');
  }

  /** The first half of the second pair takes up a separator of the first pair's second half. */
  ghost predicate Overlaps(sep: char, x: string, y: string, x': string, y': string) {
    exists w :: x' == x + [sep] + w && y == w + [sep] + y'
  }

  /** In general two different pairs share a key exactly if one overlaps the other in this way. */
  lemma PrefixKeyCollidesIff(sep: char, x: string, y: string, x': string, y': string)
    ensures x + [sep] + y == x' + [sep] + y' && (x != x' || y != y') <==>
            Overlaps(sep, x, y, x', y') || Overlaps(sep, x', y', x, y)
  {
    if x + [sep] + y == x' + [sep] + y' {
      LongerOverlaps(sep, x, y, x', y');
      LongerOverlaps(sep, x', y', x, y);
      if |x| == |x'| {
        assert (x + [sep] + y)[..|x|] == x && (x' + [sep] + y')[..|x|] == x';
        assert (x + [sep] + y)[|x| + 1..] == y && (x' + [sep] + y')[|x| + 1..] == y';
      }
    }
    if Overlaps(sep, x, y, x', y') {
      OverlapCollides(sep, x, y, x', y');
    }
    if Overlaps(sep, x', y', x, y) {
      OverlapCollides(sep, x', y', x, y);
    }
  }

  lemma LongerOverlaps(sep: char, x: string, y: string, x': string, y': string)
    requires x + [sep] + y == x' + [sep] + y'
    ensures |x| < |x'| ==> Overlaps(sep, x, y, x', y')
  {
    if |x| < |x'| {
      var s, w := x + [sep] + y, x'[|x| + 1..];
      assert s[..|x'|] == x' && s[|x'|..] == [sep] + y';
      assert s[..|x|] == x && s[|x|] == sep && s[|x| + 1..] == y;
      assert x' == x + [sep] + w;
      assert y == s[|x| + 1..|x'|] + s[|x'|..];
      assert y == w + [sep] + y';
    }
  }

  lemma OverlapCollides(sep: char, x: string, y: string, x': string, y': string)
    requires Overlaps(sep, x, y, x', y')
    ensures x + [sep] + y == x' + [sep] + y' && |x| < |x'|
  {
    var w :| x' == x + [sep] + w && y == w + [sep] + y';
    assert x + [sep] + (w + [sep] + y') == (x + [sep] + w) + [sep] + y';
  }

  /** The volume ID is that of the parsed handle. */
  lemma VolumeIdIsParsed(handle: string)
    requires ParseHandle(handle).Some?
    ensures VolumeIdOf(handle) == ParseHandle(handle).value.volumeId
  {
  }
}
