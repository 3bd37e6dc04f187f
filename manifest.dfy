/**
 * The manifest of `incremental_join_and_upload` (util.py): the text blob that records which
 * source blobs have already been merged, one name per line. It is read back with
 * `set(content.strip().split('\n'))`, compared with the blob listing to find the new blobs,
 * and written again as `'\n'.join(processed)` once they are merged.
 */
module Manifest {
  import opened Text
  import opened Listings

  /** Blobs under this prefix are the pipeline's own outputs and are never treated as inputs. */
  const JoinedPrefix: string := "joined/"

  /**
   * The processed set read from the manifest text. Empty text (which is also what a failed or
   * missing download gives) means nothing was processed; otherwise the whole text is stripped
   * and every piece between newlines is one name, the pieces themselves left unstripped.
   */
  function ParseManifest(content: string): (processed: set<string>)
    ensures content == "" ==> processed == {}
    ensures content != "" ==> processed != {}
    ensures forall x :: x in processed ==> '\n' !in x
  {
    if content == "" then {}
    else
      var names := Split(Strip(content), '\n');
      assert names[0] in names;
      SetOfMembers(names);
      SetOf(names)
  }

  /** A listed blob the run has to merge: not in the manifest, and not one of the pipeline's outputs. */
  predicate IsNew(name: string, processed: set<string>)
  {
    name !in processed && !StartsWith(name, JoinedPrefix)
  }

  /** `[b for b in listing if b not in processed and not b.startswith('joined/')]`. */
  function NewBlobs(listing: seq<string>, processed: set<string>): seq<string>
  {
    if listing == [] then []
    else
      var last := listing[|listing| - 1];
      NewBlobs(listing[..|listing| - 1], processed) + (if IsNew(last, processed) then [last] else [])
  }

  /** A name is in the new blobs exactly when it is listed and new. */
  lemma {:induction false} NewBlobsMembers(listing: seq<string>, processed: set<string>)
    ensures forall x :: x in NewBlobs(listing, processed) <==> x in listing && IsNew(x, processed)
    decreases |listing|
  {
    if listing != [] {
      NewBlobsMembers(listing[..|listing| - 1], processed);
      assert listing == listing[..|listing| - 1] + [listing[|listing| - 1]];
    }
  }

  /**
   * The filter keeps listing order: filtering a concatenation is the concatenation of the
   * filtered parts (with the one-name case, this determines the result entirely).
   */
  lemma {:induction false} NewBlobsAppend(a: seq<string>, b: seq<string>, processed: set<string>)
    ensures NewBlobs(a + b, processed) == NewBlobs(a, processed) + NewBlobs(b, processed)
    decreases |b|
  {
    if b == [] {
      assert a + b == a;
    } else {
      var init, last := b[..|b| - 1], b[|b| - 1];
      NewBlobsAppend(a, init, processed);
      assert (a + b)[..|a + b| - 1] == a + init;
    }
  }

  /** A listing without repeats gives new blobs without repeats. */
  lemma {:induction false} NewBlobsDistinct(listing: seq<string>, processed: set<string>)
    requires Distinct(listing)
    ensures Distinct(NewBlobs(listing, processed))
    decreases |listing|
  {
    if listing != [] {
      var init, last := listing[..|listing| - 1], listing[|listing| - 1];
      NewBlobsDistinct(init, processed);
      NewBlobsMembers(init, processed);
      var nb := NewBlobs(init, processed);
      assert last !in init;
      if IsNew(last, processed) {
        assert NewBlobs(listing, processed) == nb + [last];
        assert (nb + [last])[..|nb|] == nb;
      } else {
        assert NewBlobs(listing, processed) == nb + [];
        assert nb + [] == nb;
      }
    }
  }

  /** Nothing in a listing of names that are all old is new. */
  lemma {:induction false} NoNewBlobs(listing: seq<string>, processed: set<string>)
    requires forall i :: 0 <= i < |listing| ==> !IsNew(listing[i], processed)
    ensures NewBlobs(listing, processed) == []
    decreases |listing|
  {
    if listing != [] {
      NoNewBlobs(listing[..|listing| - 1], processed);
    }
  }

  /**
   * Once the new blobs are added to the processed set, nothing is new in any later listing
   * that holds only names listed before and the pipeline's own outputs.
   */
  lemma {:induction false} NothingNewTwice(listing: seq<string>, processed: set<string>, later: seq<string>)
    requires forall i :: 0 <= i < |later| ==> later[i] in listing || StartsWith(later[i], JoinedPrefix)
    ensures NewBlobs(later, processed + SetOf(NewBlobs(listing, processed))) == []
  {
    var next := processed + SetOf(NewBlobs(listing, processed));
    NewBlobsMembers(listing, processed);
    SetOfMembers(NewBlobs(listing, processed));
    forall i | 0 <= i < |later| ensures !IsNew(later[i], next) {
      if IsNew(later[i], processed) {
        assert later[i] in NewBlobs(listing, processed);
      }
    }
    NoNewBlobs(later, next);
  }

  /** A name the manifest text can record and give back: not empty, no newline, no white space at its ends. */
  predicate Recordable(name: string)
  {
    name != "" && Trimmed(name) && '\n' !in name
  }

  predicate AllRecordable(names: seq<string>)
  {
    forall i :: 0 <= i < |names| ==> Recordable(names[i])
  }

  /** `c.join(names)` begins with the first character of the first name. */
  lemma {:induction false} JoinWithFirst(names: seq<string>, c: char)
    requires names != [] && names[0] != ""
    ensures var s := JoinWith(names, c); s != "" && s[0] == names[0][0]
    decreases |names|
  {
    if |names| > 1 {
      var init := names[..|names| - 1];
      assert init[0] == names[0];
      JoinWithFirst(init, c);
    }
  }

  /** `c.join(names)` ends with the last character of the last name. */
  lemma {:induction false} JoinWithLast(names: seq<string>, c: char)
    requires names != [] && names[|names| - 1] != ""
    ensures var s, last := JoinWith(names, c), names[|names| - 1]; s != "" && s[|s| - 1] == last[|last| - 1]
  {
  }

  /**
   * Writing a list of recordable names with `'\n'.join` and parsing the text back gives
   * exactly the set of those names.
   */
  lemma {:induction false} ParseJoin(names: seq<string>)
    requires names != [] && AllRecordable(names)
    ensures ParseManifest(JoinWith(names, '\n')) == SetOf(names)
  {
    var s := JoinWith(names, '\n');
    assert Recordable(names[0]) && Recordable(names[|names| - 1]);
    JoinWithFirst(names, '\n');
    JoinWithLast(names, '\n');
    StripTrimmed(s);
    assert NoneContains(names, '\n') by {
      forall i | 0 <= i < |names| ensures '\n' !in names[i] {
        assert Recordable(names[i]);
      }
    }
    SplitJoin(names, '\n');
  }

  /**
   * The manifest written after a run, read back by the next run: when every name involved is
   * recordable, it holds the old processed set together with the new blobs, so it never loses
   * a name it held.
   */
  lemma {:induction false} ManifestGrows(processed: set<string>, newBlobs: seq<string>, written: seq<string>)
    requires written != [] && AllRecordable(written)
    requires SetOf(written) == processed + SetOf(newBlobs)
    ensures ParseManifest(JoinWith(written, '\n')) == processed + SetOf(newBlobs)
    ensures processed <= ParseManifest(JoinWith(written, '\n'))
  {
    ParseJoin(written);
  }

  /**
   * Only the text as a whole is stripped: a name with leading white space that happens to be
   * written first loses it on the way back, so the next run no longer recognises it.
   */
  lemma {:induction false} LeadingSpaceLost(ws: char, x: string, y: string)
    requires IsSpace(ws) && Recordable(x) && Recordable(y)
    ensures ParseManifest(JoinWith([[ws] + x, y], '\n')) == {x, y}
    ensures [ws] + x !in ParseManifest(JoinWith([[ws] + x, y], '\n'))
  {
    StripPair(ws, x, y);
    assert NoneContains([x, y], '\n');
    SplitJoin([x, y], '\n');
    SetOfPair(x, y);
    var w := [ws] + x;
    assert w != x by { assert |w| != |x|; }
    assert w != y by { assert w[0] == ws && !IsSpace(y[0]); }
  }

  lemma {:induction false} StripPair(ws: char, x: string, y: string)
    requires IsSpace(ws) && Recordable(x) && Recordable(y)
    ensures JoinWith([[ws] + x, y], '\n') != ""
    ensures Strip(JoinWith([[ws] + x, y], '\n')) == JoinWith([x, y], '\n')
  {
    JoinPair([ws] + x, y, '\n');
    JoinPair(x, y, '\n');
    var t := x + ['\n'] + y;
    assert [ws] + x + ['\n'] + y == [ws] + t;
    assert t[0] == x[0] && t[|t| - 1] == y[|y| - 1];
    StripLeading(ws, t);
  }

  lemma {:induction false} JoinPair(x: string, y: string, c: char)
    ensures JoinWith([x, y], c) == x + [c] + y
  {
    assert [x, y][..1] == [x];
  }

  /** One white-space character in front of a trimmed text is all that `strip()` removes. */
  lemma {:induction false} StripLeading(ws: char, t: string)
    requires IsSpace(ws) && t != "" && Trimmed(t)
    ensures Strip([ws] + t) == t
  {
    assert ([ws] + t)[1..] == t;
    assert LStrip(t) == t;
    assert RStrip(t) == t;
  }

  lemma {:induction false} SetOfPair<T>(x: T, y: T)
    ensures SetOf([x, y]) == {x, y}
  {
    SetOfSnoc([], x);
    SetOfSnoc([x], y);
    assert [] + [x] == [x] && [x] + [y] == [x, y];
  }

  /**
   * An enumeration of the processed set, in the arbitrary order in which the program iterates
   * over a Python `set`: every member once.
   */
  method Enumerate<T>(s: set<T>) returns (e: seq<T>)
    ensures SetOf(e) == s && Distinct(e)
  {
    e := [];
    var rest := s;
    while rest != {}
      invariant SetOf(e) + rest == s && SetOf(e) !! rest && Distinct(e)
      decreases |rest|
    {
      var x :| x in rest;
      EnumerateStep(e, rest, s, x);
      e, rest := e + [x], rest - {x};
    }
  }

  /** Moving one member from the rest of the set to the end of the enumeration keeps the loop's invariant. */
  lemma {:induction false} EnumerateStep<T>(e: seq<T>, rest: set<T>, s: set<T>, x: T)
    requires SetOf(e) + rest == s && SetOf(e) !! rest && Distinct(e) && x in rest
    ensures SetOf(e + [x]) + (rest - {x}) == s && SetOf(e + [x]) !! (rest - {x}) && Distinct(e + [x])
  {
    SetOfSnoc(e, x);
  }
}
