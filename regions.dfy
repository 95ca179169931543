/**
  Resolution of a region's English display name to its two-letter ISO code
  (`GetISORegionNameFromEnglishName` in SpeedTestRunner.cs).

  The runtime's culture catalog is a parameter: a sequence of entries, one per
  specific culture in catalog order, each carrying the culture's LCID and the
  English name and two-letter code of the region built from that LCID.
*/
module Regions {
  import opened Outcomes

  /** One specific culture of the catalog, with the region that its LCID denotes. */
  datatype Culture = Culture(lcid: int, englishName: string, twoLetterIsoRegionName: string)

  /** The LCID whose region cannot be constructed; it is filtered out before any comparison. */
  const UnsupportedCultureLcid: int := 4096

  /** The code returned when no region matches. */
  const UnknownIsoRegionName: string := "XX"

  function ToLowerAscii(c: char): char
  {
    if 'A' <= c <= 'Z' then (c as int + 32) as char else c
  }

  function Lower(s: string): (l: string)
    ensures |l| == |s|
    ensures forall i :: 0 <= i < |s| ==> l[i] == ToLowerAscii(s[i])
  {
    seq(|s|, i requires 0 <= i < |s| => ToLowerAscii(s[i]))
  }

  /**
    `String.Equals(a, b, StringComparison.OrdinalIgnoreCase)`, restricted to ASCII
    case folding: same length, and equal character by character after folding.
  */
  predicate EqualsIgnoreCase(a: string, b: string)
    ensures EqualsIgnoreCase(a, b)
        <==> |a| == |b| && forall i :: 0 <= i < |a| ==> ToLowerAscii(a[i]) == ToLowerAscii(b[i])
  {
    Lower(a) == Lower(b)
  }

  predicate Supported(c: Culture)
  {
    c.lcid != UnsupportedCultureLcid
  }

  /** The `Where(lcid => lcid != unsupportedCultureLCID)` step: the catalog without LCID 4096, in order. */
  function SupportedRegions(cultures: seq<Culture>): (r: seq<Culture>)
    ensures forall i :: 0 <= i < |r| ==> Supported(r[i])
  {
    if cultures == [] then []
    else (if Supported(cultures[0]) then [cultures[0]] else []) + SupportedRegions(cultures[1..])
  }

  /** `FirstOrDefault` with the case-insensitive name comparison as its predicate. */
  function FirstMatch(regions: seq<Culture>, englishName: string): (r: Option<Culture>)
    ensures r.Some? ==> r.value in regions && EqualsIgnoreCase(r.value.englishName, englishName)
  {
    if regions == [] then None
    else if EqualsIgnoreCase(regions[0].englishName, englishName) then Some(regions[0])
    else FirstMatch(regions[1..], englishName)
  }

  /**
    The two-letter code of the first supported catalog entry whose English name
    equals `englishName` ignoring case, or "XX" when there is none.
  */
  function GetIsoRegionNameFromEnglishName(cultures: seq<Culture>, englishName: string): (code: string)
    ensures code == UnknownIsoRegionName
         || exists c :: c in cultures && Supported(c) && EqualsIgnoreCase(c.englishName, englishName)
                        && c.twoLetterIsoRegionName == code
    ensures (forall c :: c in cultures && Supported(c) ==> !EqualsIgnoreCase(c.englishName, englishName))
         ==> code == UnknownIsoRegionName
  {
    SupportedRegionsMembers(cultures);
    FirstMatchSpec(SupportedRegions(cultures), englishName);
    match FirstMatch(SupportedRegions(cultures), englishName)
    case None => UnknownIsoRegionName
    case Some(region) => region.twoLetterIsoRegionName
  }

  /** Filtering keeps exactly the supported entries. */
  lemma {:induction false} SupportedRegionsMembers(cultures: seq<Culture>)
    ensures forall c :: c in SupportedRegions(cultures) <==> c in cultures && Supported(c)
  {
    if cultures != [] {
      SupportedRegionsMembers(cultures[1..]);
      assert cultures == [cultures[0]] + cultures[1..];
    }
  }

  /** `FirstMatch` finds a matching region exactly when one exists, and no region before it matches. */
  lemma {:induction false} FirstMatchSpec(regions: seq<Culture>, englishName: string)
    ensures FirstMatch(regions, englishName).None?
        <==> forall c :: c in regions ==> !EqualsIgnoreCase(c.englishName, englishName)
    ensures FirstMatch(regions, englishName).Some? ==>
      var found := FirstMatch(regions, englishName).value;
      && found in regions && EqualsIgnoreCase(found.englishName, englishName)
      && exists i :: 0 <= i < |regions| && regions[i] == found
           && forall j :: 0 <= j < i ==> !EqualsIgnoreCase(regions[j].englishName, englishName)
  {
    if regions != [] {
      var tail := regions[1..];
      FirstMatchSpec(tail, englishName);
      assert regions == [regions[0]] + tail;
      if EqualsIgnoreCase(regions[0].englishName, englishName) {
        assert regions[0] == FirstMatch(regions, englishName).value;
      } else if FirstMatch(tail, englishName).Some? {
        var found := FirstMatch(tail, englishName).value;
        var i :| 0 <= i < |tail| && tail[i] == found
                 && forall j :: 0 <= j < i ==> !EqualsIgnoreCase(tail[j].englishName, englishName);
        assert regions[i + 1] == found;
        forall j | 0 <= j < i + 1
          ensures !EqualsIgnoreCase(regions[j].englishName, englishName)
        {
          if j > 0 {
            assert regions[j] == tail[j - 1];
          }
        }
      }
    }
  }

  lemma {:induction false} SupportedRegionsAppend(a: seq<Culture>, b: seq<Culture>)
    ensures SupportedRegions(a + b) == SupportedRegions(a) + SupportedRegions(b)
  {
    if a == [] {
      assert a + b == b;
    } else {
      var kept := if Supported(a[0]) then [a[0]] else [];
      assert (a + b)[0] == a[0];
      assert (a + b)[1..] == a[1..] + b;
      SupportedRegionsAppend(a[1..], b);
      calc {
        SupportedRegions(a + b);
        kept + SupportedRegions(a[1..] + b);
        kept + (SupportedRegions(a[1..]) + SupportedRegions(b));
        (kept + SupportedRegions(a[1..])) + SupportedRegions(b);
        SupportedRegions(a) + SupportedRegions(b);
      }
    }
  }

  lemma {:induction false} FirstMatchAppend(a: seq<Culture>, b: seq<Culture>, englishName: string)
    ensures FirstMatch(a + b, englishName)
         == if FirstMatch(a, englishName).Some? then FirstMatch(a, englishName) else FirstMatch(b, englishName)
  {
    if a == [] {
      assert a + b == b;
    } else {
      assert (a + b)[1..] == a[1..] + b;
      FirstMatchAppend(a[1..], b, englishName);
    }
  }

  /**
    The resolver returns the code of the FIRST catalog entry that is supported and
    matches: every supported entry before it has a different name.
  */
  lemma {:induction false} ResolvesToFirstSupportedMatch(cultures: seq<Culture>, englishName: string, i: nat)
    requires i < |cultures|
    requires Supported(cultures[i]) && EqualsIgnoreCase(cultures[i].englishName, englishName)
    requires forall j :: 0 <= j < i && Supported(cultures[j]) ==> !EqualsIgnoreCase(cultures[j].englishName, englishName)
    ensures GetIsoRegionNameFromEnglishName(cultures, englishName) == cultures[i].twoLetterIsoRegionName
  {
    FirstSupportedMatch(cultures, englishName, i);
  }

  lemma {:induction false} FirstSupportedMatch(cultures: seq<Culture>, englishName: string, i: nat)
    requires i < |cultures|
    requires Supported(cultures[i]) && EqualsIgnoreCase(cultures[i].englishName, englishName)
    requires forall j :: 0 <= j < i && Supported(cultures[j]) ==> !EqualsIgnoreCase(cultures[j].englishName, englishName)
    ensures FirstMatch(SupportedRegions(cultures), englishName) == Some(cultures[i])
  {
    var head, tail := cultures[0], cultures[1..];
    if i > 0 {
      forall j | 0 <= j < i - 1 && Supported(tail[j])
        ensures !EqualsIgnoreCase(tail[j].englishName, englishName)
      {
        assert tail[j] == cultures[j + 1];
      }
      FirstSupportedMatch(tail, englishName, i - 1);
      if Supported(head) {
        assert SupportedRegions(cultures) == [head] + SupportedRegions(tail);
        assert !EqualsIgnoreCase(head.englishName, englishName);
        assert ([head] + SupportedRegions(tail))[1..] == SupportedRegions(tail);
      } else {
        assert SupportedRegions(cultures) == [] + SupportedRegions(tail);
        assert [] + SupportedRegions(tail) == SupportedRegions(tail);
      }
    } else {
      var regions := SupportedRegions(cultures);
      assert regions == [head] + SupportedRegions(tail);
      assert regions != [] && regions[0] == head;
    }
  }

  /**
    "XX" is returned exactly when no supported entry matches, provided no
    supported entry itself carries the code "XX".
  */
  lemma UnknownExactlyWhenNoMatch(cultures: seq<Culture>, englishName: string)
    requires forall c :: c in cultures && Supported(c) ==> c.twoLetterIsoRegionName != UnknownIsoRegionName
    ensures GetIsoRegionNameFromEnglishName(cultures, englishName) == UnknownIsoRegionName
        <==> forall c :: c in cultures && Supported(c) ==> !EqualsIgnoreCase(c.englishName, englishName)
  {
    SupportedRegionsMembers(cultures);
    FirstMatchSpec(SupportedRegions(cultures), englishName);
  }

  /** An entry with LCID 4096, inserted anywhere in the catalog, never changes the answer. */
  lemma UnsupportedCultureIgnored(cultures: seq<Culture>, k: nat, excluded: Culture, englishName: string)
    requires k <= |cultures|
    requires excluded.lcid == UnsupportedCultureLcid
    ensures GetIsoRegionNameFromEnglishName(cultures[..k] + [excluded] + cultures[k..], englishName)
         == GetIsoRegionNameFromEnglishName(cultures, englishName)
  {
    var before, after := cultures[..k], cultures[k..];
    assert SupportedRegions([excluded]) == [] by {
      assert [excluded][1..] == [];
    }
    SupportedRegionsAppend(before + [excluded], after);
    SupportedRegionsAppend(before, [excluded]);
    SupportedRegionsAppend(before, after);
    assert SupportedRegions(before + [excluded]) == SupportedRegions(before);
    assert before + after == cultures;
  }

  lemma {:induction false} FirstMatchIgnoresCase(regions: seq<Culture>, a: string, b: string)
    requires EqualsIgnoreCase(a, b)
    ensures FirstMatch(regions, a) == FirstMatch(regions, b)
  {
    if regions != [] {
      FirstMatchIgnoresCase(regions[1..], a, b);
    }
  }

  /** Two names that differ only in ASCII case resolve to the same code. */
  lemma ResolutionIgnoresCase(cultures: seq<Culture>, a: string, b: string)
    requires EqualsIgnoreCase(a, b)
    ensures GetIsoRegionNameFromEnglishName(cultures, a) == GetIsoRegionNameFromEnglishName(cultures, b)
  {
    FirstMatchIgnoresCase(SupportedRegions(cultures), a, b);
  }

  /** A sample catalog: an unsupported entry with the same name precedes the real one. */
  function SampleCultures(): seq<Culture>
  {
    [Culture(4096, "United States", "QQ"), Culture(1033, "United States", "US"), Culture(2057, "United Kingdom", "GB")]
  }

  /** The unsupported entry is skipped and case is ignored. */
  lemma SampleResolvesIgnoringCase()
    ensures GetIsoRegionNameFromEnglishName(SampleCultures(), "united states") == "US"
  {
    assert EqualsIgnoreCase("United States", "united states");
    ResolvesToFirstSupportedMatch(SampleCultures(), "united states", 1);
  }

  /** A name matching no entry resolves to "XX". */
  lemma SampleUnknownName()
    ensures GetIsoRegionNameFromEnglishName(SampleCultures(), "Nonexistent Country Name") == UnknownIsoRegionName
  {
    var cultures := SampleCultures();
    forall c | c in cultures && Supported(c)
      ensures !EqualsIgnoreCase(c.englishName, "Nonexistent Country Name")
    {
      assert |Lower(c.englishName)| != |Lower("Nonexistent Country Name")|;
    }
  }
}
