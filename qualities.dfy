/** Resolution labels offered for a video: `VideoProcessor._extract_qualities`. */
module QualityBuckets {
  import opened Wrappers
  import opened Decimal

  /** A format descriptor from the extractor; only its optional pixel height matters here. */
  datatype Format = Format(height: Option<int>)

  /** The bucket heights, highest first. There is no 2160 bucket. */
  const BUCKETS: seq<nat> := [1440, 1080, 720, 480, 360]

  predicate StrictlyDescending(s: seq<nat>)
  {
    forall i, j :: 0 <= i < j < |s| ==> s[i] > s[j]
  }

  /**
   * The bucket a format's height falls into: the largest bucket height it reaches. A missing
   * height or a height of 0 (falsy in Python) and every height below 360 fall into none.
   */
  function Bucket(height: Option<int>): (b: Option<nat>)
    ensures b.Some? ==> height.Some? && b.value in BUCKETS && b.value <= height.value
    ensures b.Some? ==> forall c :: c in BUCKETS && c <= height.value ==> c <= b.value
    ensures b.None? <==> height.None? || height.value < 360
  {
    if height.None? || height.value == 0 then None
    else if height.value >= 1440 then Some(1440)
    else if height.value >= 1080 then Some(1080)
    else if height.value >= 720 then Some(720)
    else if height.value >= 480 then Some(480)
    else if height.value >= 360 then Some(360)
    else None
  }

  /** The set the loop accumulates over `formats`, one format at a time from the front. */
  function QualitySet(formats: seq<Format>): set<nat>
  {
    if formats == [] then {}
    else
      var b := Bucket(formats[|formats| - 1].height);
      QualitySet(formats[..|formats| - 1]) + (if b.Some? then {b.value} else {})
  }

  /** The elements of `table` that are in `q`, in the table's order. */
  function InTableOrder(table: seq<nat>, q: set<nat>): (r: seq<nat>)
    ensures |r| <= |table|
  {
    if table == [] then []
    else (if table[0] in q then [table[0]] else []) + InTableOrder(table[1..], q)
  }

  /** The label of a bucket, such as "1080p". */
  function Label(b: nat): string
  {
    NatToString(b) + "p"
  }

  function Labels(bs: seq<nat>): (r: seq<string>)
    ensures |r| == |bs|
    ensures forall i :: 0 <= i < |bs| ==> r[i] == Label(bs[i])
  {
    if bs == [] then [] else [Label(bs[0])] + Labels(bs[1..])
  }

  /** `s.replace(c, "")`. */
  function RemoveChar(s: string, c: char): string
  {
    if s == [] then [] else (if s[0] == c then [] else [s[0]]) + RemoveChar(s[1..], c)
  }

  /** The sort key of a label, `int(label.replace("p", ""))`; 0 for a label that is not a number. */
  function LabelValue(name: string): nat
  {
    var digits := RemoveChar(name, 'p');
    if AllDigits(digits) then ParseNat(digits) else 0
  }

  /** The labels a list of formats yields, highest first; there are at most five. */
  function Qualities(formats: seq<Format>): (r: seq<string>)
    ensures |r| <= |BUCKETS|
  {
    Labels(InTableOrder(BUCKETS, QualitySet(formats)))
  }

  /**
   * Collects the bucket of every format into a set, then returns the labels of that set
   * sorted by their numeric value, highest first.
   */
  method ExtractQualities(formats: seq<Format>) returns (labels: seq<string>)
    ensures labels == Qualities(formats)
  {
    var qualities: set<nat> := {};
    for i := 0 to |formats|
      invariant qualities == QualitySet(formats[..i])
    {
      assert formats[..i + 1][..i] == formats[..i];
      var b := Bucket(formats[i].height);
      if b.Some? {
        qualities := qualities + {b.value};
      }
    }
    assert formats[..|formats|] == formats;
    labels := Labels(InTableOrder(BUCKETS, qualities));
  }

  // ----- Properties -----

  lemma {:induction false} QualitySetMembers(formats: seq<Format>, b: nat)
    ensures b in QualitySet(formats) <==> exists i :: 0 <= i < |formats| && Bucket(formats[i].height) == Some(b)
  {
    if formats != [] {
      var init := formats[..|formats| - 1];
      QualitySetMembers(init, b);
      if b in QualitySet(init) {
        var i :| 0 <= i < |init| && Bucket(init[i].height) == Some(b);
        assert formats[i] == init[i];
      }
      if exists i :: 0 <= i < |formats| && Bucket(formats[i].height) == Some(b) {
        var i :| 0 <= i < |formats| && Bucket(formats[i].height) == Some(b);
        if i < |init| {
          assert init[i] == formats[i];
        }
      }
    }
  }

  lemma {:induction false} InTableOrderMembers(table: seq<nat>, q: set<nat>, x: nat)
    ensures x in InTableOrder(table, q) <==> x in table && x in q
  {
    if table != [] {
      InTableOrderMembers(table[1..], q, x);
      assert table == [table[0]] + table[1..];
    }
  }

  lemma {:induction false} InTableOrderDescending(table: seq<nat>, q: set<nat>)
    requires StrictlyDescending(table)
    ensures StrictlyDescending(InTableOrder(table, q))
  {
    if table != [] {
      var rest := InTableOrder(table[1..], q);
      InTableOrderDescending(table[1..], q);
      if table[0] in q {
        forall j | 0 <= j < |rest| ensures rest[j] < table[0] {
          InTableOrderMembers(table[1..], q, rest[j]);
          var k :| 0 <= k < |table[1..]| && table[1..][k] == rest[j];
          assert table[k + 1] == rest[j];
        }
        assert InTableOrder(table, q) == [table[0]] + rest;
      } else {
        assert InTableOrder(table, q) == rest;
      }
    }
  }

  /** Reading back a label gives its bucket. */
  lemma LabelValueOfLabel(b: nat)
    ensures LabelValue(Label(b)) == b
  {
    NoP(NatToString(b));
    RemoveCharConcat(NatToString(b), "p", 'p');
    assert "p"[1..] == [];
    assert NatToString(b) + [] == NatToString(b);
    ParseNatToString(b);
  }

  lemma {:induction false} NoP(s: string)
    requires AllDigits(s)
    ensures RemoveChar(s, 'p') == s
  {
    if s != [] {
      NoP(s[1..]);
      assert [s[0]] + s[1..] == s;
    }
  }

  lemma {:induction false} RemoveCharConcat(a: string, b: string, c: char)
    ensures RemoveChar(a + b, c) == RemoveChar(a, c) + RemoveChar(b, c)
  {
    if a != [] {
      assert (a + b)[1..] == a[1..] + b;
      RemoveCharConcat(a[1..], b, c);
    } else {
      assert a + b == b;
    }
  }

  /**
   * A height contributes a label exactly when some format has a bucket for it: the output
   * holds the label of every bucket some format reaches and nothing else.
   */
  lemma QualitiesMembers(formats: seq<Format>, name: string)
    ensures name in Qualities(formats) <==>
      exists i, b :: 0 <= i < |formats| && Bucket(formats[i].height) == Some(b) && name == Label(b)
  {
    var order := InTableOrder(BUCKETS, QualitySet(formats));
    if name in Qualities(formats) {
      var k :| 0 <= k < |order| && name == Label(order[k]);
      InTableOrderMembers(BUCKETS, QualitySet(formats), order[k]);
      QualitySetMembers(formats, order[k]);
    }
    if exists i, b :: 0 <= i < |formats| && Bucket(formats[i].height) == Some(b) && name == Label(b) {
      var i, b :| 0 <= i < |formats| && Bucket(formats[i].height) == Some(b) && name == Label(b);
      QualitySetMembers(formats, b);
      InTableOrderMembers(BUCKETS, QualitySet(formats), b);
      var k :| 0 <= k < |order| && order[k] == b;
      assert Qualities(formats)[k] == name;
    }
  }

  /** The output is strictly descending by numeric value, hence free of duplicates. */
  lemma QualitiesSorted(formats: seq<Format>)
    ensures forall i, j :: 0 <= i < j < |Qualities(formats)| ==>
      LabelValue(Qualities(formats)[i]) > LabelValue(Qualities(formats)[j])
  {
    var order := InTableOrder(BUCKETS, QualitySet(formats));
    InTableOrderDescending(BUCKETS, QualitySet(formats));
    forall i | 0 <= i < |order| ensures LabelValue(Qualities(formats)[i]) == order[i] {
      LabelValueOfLabel(order[i]);
    }
  }

  /** The output uses only the five bucket labels. */
  lemma QualitiesFromTable(formats: seq<Format>)
    ensures forall l :: l in Qualities(formats) ==> l in Labels(BUCKETS)
  {
    var order := InTableOrder(BUCKETS, QualitySet(formats));
    forall l | l in Qualities(formats) ensures l in Labels(BUCKETS) {
      var k :| 0 <= k < |order| && l == Label(order[k]);
      InTableOrderMembers(BUCKETS, QualitySet(formats), order[k]);
      var m :| 0 <= m < |BUCKETS| && BUCKETS[m] == order[k];
      assert Labels(BUCKETS)[m] == l;
    }
  }

  /** The output depends only on which formats occur, not on their order or repetition. */
  lemma QualitiesOrderIndependent(a: seq<Format>, b: seq<Format>)
    requires forall f :: f in a <==> f in b
    ensures Qualities(a) == Qualities(b)
  {
    forall x ensures x in QualitySet(a) <==> x in QualitySet(b) {
      QualitySetMembers(a, x);
      QualitySetMembers(b, x);
      if x in QualitySet(a) {
        var i :| 0 <= i < |a| && Bucket(a[i].height) == Some(x);
        assert a[i] in b;
      }
      if x in QualitySet(b) {
        var i :| 0 <= i < |b| && Bucket(b[i].height) == Some(x);
        assert b[i] in a;
      }
    }
    assert QualitySet(a) == QualitySet(b);
  }

  /** A strictly descending sequence is determined by its elements. */
  lemma {:induction false} DescendingUnique(a: seq<nat>, b: seq<nat>)
    requires StrictlyDescending(a) && StrictlyDescending(b)
    requires forall x :: x in a <==> x in b
    ensures a == b
  {
    if a == [] {
      if b != [] {
        FirstIsMember(b);
        assert false;
      }
    } else {
      assert a[0] in b && b != [];
      assert b[0] in a;
      HeadIsLargest(a);
      HeadIsLargest(b);
      forall x ensures x in a[1..] <==> x in b[1..] {
        if x in a[1..] {
          var k :| 0 <= k < |a[1..]| && a[1..][k] == x;
          assert a[k + 1] < a[0];
          assert x in b;
          var m :| 0 <= m < |b| && b[m] == x;
          assert m != 0;
          assert b[1..][m - 1] == x;
        }
        if x in b[1..] {
          var k :| 0 <= k < |b[1..]| && b[1..][k] == x;
          assert b[k + 1] < b[0];
          assert x in a;
          var m :| 0 <= m < |a| && a[m] == x;
          assert m != 0;
          assert a[1..][m - 1] == x;
        }
      }
      DescendingUnique(a[1..], b[1..]);
      assert a == [a[0]] + a[1..] && b == [b[0]] + b[1..];
    }
  }

  /**
   * `sorted(qualities, key=..., reverse=True)` has only one possible outcome: any list with the
   * output's labels that strictly descends by numeric value is the output itself.
   */
  lemma SortedLabelsUnique(formats: seq<Format>, labels: seq<string>)
    requires forall l :: l in labels <==> l in Qualities(formats)
    requires forall i, j :: 0 <= i < j < |labels| ==> LabelValue(labels[i]) > LabelValue(labels[j])
    ensures labels == Qualities(formats)
  {
    InTableOrderDescending(BUCKETS, QualitySet(formats));
    LabelsSortedUnique(InTableOrder(BUCKETS, QualitySet(formats)), labels);
  }

  /** The labels of a strictly descending list of buckets are the only descending list of them. */
  lemma LabelsSortedUnique(order: seq<nat>, labels: seq<string>)
    requires StrictlyDescending(order)
    requires forall l :: l in labels <==> l in Labels(order)
    requires forall i, j :: 0 <= i < j < |labels| ==> LabelValue(labels[i]) > LabelValue(labels[j])
    ensures labels == Labels(order)
  {
    var values := seq(|labels|, i requires 0 <= i < |labels| => LabelValue(labels[i]));
    forall x ensures x in values <==> x in order {
      if x in values {
        var i :| 0 <= i < |values| && values[i] == x;
        LabelValueInOrder(order, labels[i]);
      }
      if x in order {
        var k :| 0 <= k < |order| && order[k] == x;
        assert Labels(order)[k] == Label(x);
        assert Label(x) in labels;
        var i :| 0 <= i < |labels| && labels[i] == Label(x);
        LabelValueOfLabel(x);
        assert values[i] == x;
      }
    }
    DescendingUnique(values, order);
    forall i | 0 <= i < |labels| ensures labels[i] == Labels(order)[i] {
      LabelValueInOrder(order, labels[i]);
      assert values[i] == order[i];
    }
  }

  /** A member of `Labels(order)` is the label of its own numeric value, which is in `order`. */
  lemma LabelValueInOrder(order: seq<nat>, l: string)
    requires l in Labels(order)
    ensures LabelValue(l) in order && l == Label(LabelValue(l))
  {
    var k :| 0 <= k < |order| && Labels(order)[k] == l;
    LabelValueOfLabel(order[k]);
  }

  lemma FirstIsMember(s: seq<nat>)
    requires s != []
    ensures s[0] in s
  {
  }

  lemma HeadIsLargest(s: seq<nat>)
    requires StrictlyDescending(s) && s != []
    ensures forall x :: x in s ==> x <= s[0]
  {
    forall x | x in s ensures x <= s[0] {
      var k :| 0 <= k < |s| && s[k] == x;
      if k > 0 {
        assert s[0] > s[k];
      }
    }
  }

  /** The labels of the five buckets. */
  lemma BucketLabels()
    ensures Label(1440) == "1440p" && Label(1080) == "1080p" && Label(720) == "720p"
    ensures Label(480) == "480p" && Label(360) == "360p"
  {
    LabelsHigh();
    LabelsLow();
  }

  lemma LabelsHigh()
    ensures Label(1440) == "1440p" && Label(1080) == "1080p"
  {
    assert NatToString(1440) == "1440" by {
      assert NatToString(144) == "144" by { assert NatToString(14) == "14"; }
    }
    assert NatToString(1080) == "1080" by {
      assert NatToString(108) == "108" by { assert NatToString(10) == "10"; }
    }
  }

  lemma LabelsLow()
    ensures Label(720) == "720p" && Label(480) == "480p" && Label(360) == "360p"
  {
    assert NatToString(720) == "720" by { assert NatToString(72) == "72"; }
    assert NatToString(480) == "480" by { assert NatToString(48) == "48"; }
    assert NatToString(360) == "360" by { assert NatToString(36) == "36"; }
  }

  lemma ExampleQualitySet(formats: seq<Format>)
    requires formats == [Format(Some(144)), Format(Some(1080)), Format(Some(720)), Format(Some(2001)), Format(Some(480))]
    ensures QualitySet(formats) == {1080, 720, 1440, 480}
  {
    assert formats[..1][..0] == [];
    assert QualitySet(formats[..1]) == {};
    assert formats[..2][..1] == formats[..1];
    assert QualitySet(formats[..2]) == {1080};
    assert formats[..3][..2] == formats[..2];
    assert QualitySet(formats[..3]) == {1080, 720};
    assert formats[..4][..3] == formats[..3];
    assert QualitySet(formats[..4]) == {1080, 720, 1440};
    assert formats[..4] == formats[..|formats| - 1];
  }

  lemma ExampleTableOrder(q: set<nat>)
    requires q == {1080, 720, 1440, 480}
    ensures InTableOrder(BUCKETS, q) == [1440, 1080, 720, 480]
  {
    assert InTableOrder(BUCKETS[4..], q) == [];
    assert InTableOrder(BUCKETS[3..], q) == [480];
    assert InTableOrder(BUCKETS[2..], q) == [720, 480];
    assert InTableOrder(BUCKETS[1..], q) == [1080, 720, 480];
  }

  lemma ExampleLabels()
    ensures Labels([1440, 1080, 720, 480]) == ["1440p", "1080p", "720p", "480p"]
  {
    BucketLabels();
    var r := Labels([1440, 1080, 720, 480]);
    assert r[0] == "1440p" && r[1] == "1080p" && r[2] == "720p" && r[3] == "480p";
  }

  /** Heights 144, 1080, 720, 2001 and 480: 144 is below every bucket and 2001 lands in 1440p. */
  lemma QualitiesExample()
    ensures Qualities([Format(Some(144)), Format(Some(1080)), Format(Some(720)), Format(Some(2001)), Format(Some(480))])
         == ["1440p", "1080p", "720p", "480p"]
  {
    var formats := [Format(Some(144)), Format(Some(1080)), Format(Some(720)), Format(Some(2001)), Format(Some(480))];
    ExampleQualitySet(formats);
    ExampleTableOrder(QualitySet(formats));
    ExampleLabels();
  }
}
