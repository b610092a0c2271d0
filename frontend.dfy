/** The selection-and-generation logic of the Terraform generator widget
    (frontend/frontend.js): the static catalog, the derived resource lists, the
    identifier normaliser, the snippet template and the character-by-character
    emitter. The component's state is the class `TerraformGenerator`; each of
    its methods is specified by a step function on the value `Ui`. */
module Frontend {
  import opened Strings
  import opened Seqs

  // ---------------------------------------------------------------- catalog

  datatype Provider = Provider(name: string, logo: string)
  datatype Resource = Resource(name: string, provider: string)

  const CloudProviders: seq<Provider> := [
    Provider("Microsoft Azure", "/api/placeholder/32/32"),
    Provider("Amazon Web Services", "/api/placeholder/32/32"),
    Provider("Google Cloud Platform", "/api/placeholder/32/32")
  ]

  const MockResources: seq<Resource> := [
    Resource("Virtual Machine", "Microsoft Azure"),
    Resource("Storage Account", "Microsoft Azure"),
    Resource("EC2 Instance", "Amazon Web Services"),
    Resource("S3 Bucket", "Amazon Web Services"),
    Resource("Compute Engine", "Google Cloud Platform"),
    Resource("Cloud Storage", "Google Cloud Platform")
  ]

  /** `provider` labels one of the provider buttons, which pass nothing else
      to `handleProviderSelect`. */
  predicate IsButtonName(provider: string)
  {
    exists k :: 0 <= k < |CloudProviders| && CloudProviders[k].name == provider
  }

  /** Every button carries a non-empty name. */
  lemma ButtonNameNonEmpty(provider: string)
    requires IsButtonName(provider)
    ensures provider != ""
  {
    var k :| 0 <= k < |CloudProviders| && CloudProviders[k].name == provider;
    assert CloudProviders[k].name != "";
  }

  function Names(rs: seq<Resource>): (ns: seq<string>)
    ensures |ns| == |rs| && forall k :: 0 <= k < |rs| ==> ns[k] == rs[k].name
  {
    seq(|rs|, k requires 0 <= k < |rs| => rs[k].name)
  }

  lemma NameOfMember(rs: seq<Resource>, r: Resource)
    requires r in rs
    ensures r.name in Names(rs)
  {
    var j :| 0 <= j < |rs| && rs[j] == r;
    assert Names(rs)[j] == r.name;
  }

  /** `rs.filter(r => r.provider === provider)`, written out over the list so
      that the catalog literal unfolds cheaply; `OfferedByIsFilter` proves it
      equal to the generic `Filter`. */
  function OfferedBy(rs: seq<Resource>, provider: string): seq<Resource>
  {
    if rs == [] then []
    else (if rs[0].provider == provider then [rs[0]] else []) + OfferedBy(rs[1..], provider)
  }

  /** The effect's derivation: the catalog resources offered for `provider`. */
  function ResourcesOf(provider: string): seq<Resource>
  {
    OfferedBy(MockResources, provider)
  }

  /** The written-out filter agrees with the generic one. */
  lemma {:induction false} OfferedByIsFilter(rs: seq<Resource>, provider: string)
    ensures OfferedBy(rs, provider) == Filter(rs, (r: Resource) => r.provider == provider)
  {
    if rs != [] {
      OfferedByIsFilter(rs[1..], provider);
    }
  }

  /** The options for a provider are exactly its catalog entries, in catalog order. */
  lemma ResourcesOfSpec(provider: string)
    ensures forall r :: r in ResourcesOf(provider) <==> r in MockResources && r.provider == provider
    ensures IsSubsequence(ResourcesOf(provider), MockResources)
  {
    OfferedByIsFilter(MockResources, provider);
    FilterIsSubsequence(MockResources, (r: Resource) => r.provider == provider);
  }

  // ---------------------------------------------------------------- search

  /** Case-insensitive substring test of a resource's name against the search term. */
  predicate MatchesSearch(r: Resource, term: string)
  {
    Contains(Lower(r.name), Lower(term))
  }

  /** `filteredResources`: the options whose lower-cased name contains the
      lower-cased search term. */
  function FilterResources(options: seq<Resource>, term: string): seq<Resource>
  {
    Filter(options, (r: Resource) => MatchesSearch(r, term))
  }

  /** Filtering keeps exactly the matching options, in their order, and an
      empty search term keeps them all. */
  lemma FilterResourcesSpec(options: seq<Resource>, term: string)
    ensures forall r :: r in FilterResources(options, term) <==> r in options && MatchesSearch(r, term)
    ensures IsSubsequence(FilterResources(options, term), options)
    ensures term == "" ==> FilterResources(options, term) == options
  {
    FilterIsSubsequence(options, (r: Resource) => MatchesSearch(r, term));
    if term == "" {
      forall k | 0 <= k < |options| ensures MatchesSearch(options[k], term) {
        assert OccursAt(Lower(options[k].name), Lower(term), 0);
      }
      FilterKeepsAll(options, (r: Resource) => MatchesSearch(r, term));
    }
  }

  // ---------------------------------------------------------------- normaliser

  predicate IsJsNonSpace(c: char)
  {
    !IsJsSpace(c)
  }

  /** The characters of `s` that are not whitespace, in order. */
  function RemoveSpaces(s: string): string
  {
    Filter(s, IsJsNonSpace)
  }

  predicate NoAdjacentSpaces(s: string)
  {
    forall k :: 0 <= k < |s| - 1 ==> !(IsJsSpace(s[k]) && IsJsSpace(s[k + 1]))
  }

  predicate SpacesAreBlanks(s: string)
  {
    forall k :: 0 <= k < |s| && IsJsSpace(s[k]) ==> s[k] == ' '
  }

  lemma RemoveSpacesStripStart(s: string)
    ensures RemoveSpaces(StripStart(s, IsJsSpace)) == RemoveSpaces(s)
  {
    var t := StripStart(s, IsJsSpace);
    StripStartSpec(s, IsJsSpace);
    var n := |s| - |t|;
    assert s == s[..n] + t;
    FilterAppend(s[..n], t, IsJsNonSpace);
    FilterDropsAll(s[..n], IsJsNonSpace);
  }

  /** `.replace(/\s+/g, ' ', '_')`. JavaScript ignores the third argument, so
      each maximal run of whitespace becomes ONE SPACE, not an underscore. */
  function CollapseSpaces(s: string): string
    decreases |s|
  {
    if s == [] then []
    else if IsJsSpace(s[0]) then [' '] + CollapseSpaces(StripStart(s, IsJsSpace))
    else [s[0]] + CollapseSpaces(s[1..])
  }

  /** Collapsing keeps a first or last character that is not whitespace. */
  lemma {:induction false} CollapseEnds(s: string)
    ensures s != [] && !IsJsSpace(s[0]) ==> CollapseSpaces(s) != [] && CollapseSpaces(s)[0] == s[0]
    ensures s != [] && !IsJsSpace(s[|s| - 1]) ==>
      CollapseSpaces(s) != [] && CollapseSpaces(s)[|CollapseSpaces(s)| - 1] == s[|s| - 1]
    decreases |s|
  {
    if s != [] && !IsJsSpace(s[|s| - 1]) {
      if IsJsSpace(s[0]) {
        var rest := StripStart(s, IsJsSpace);
        StripStartSpec(s, IsJsSpace);
        CollapseEnds(rest);
        assert rest != [] && rest[|rest| - 1] == s[|s| - 1];
      } else {
        CollapseEnds(s[1..]);
        if |s| > 1 {
          assert s[1..][|s| - 2] == s[|s| - 1];
        }
      }
    }
  }

  /** Collapsing introduces no character other than the space. */
  lemma {:induction false} CollapseChars(s: string)
    ensures forall c :: c in CollapseSpaces(s) ==> c == ' ' || c in s
    decreases |s|
  {
    if s != [] {
      if IsJsSpace(s[0]) {
        var rest := StripStart(s, IsJsSpace);
        StripStartSpec(s, IsJsSpace);
        CollapseChars(rest);
        assert forall c :: c in rest ==> c in s;
      } else {
        CollapseChars(s[1..]);
        assert forall c :: c in s[1..] ==> c in s;
      }
    }
  }

  /** Collapsing leaves no two whitespace characters side by side and turns
      every remaining one into a space. */
  lemma {:induction false} CollapseShape(s: string)
    ensures NoAdjacentSpaces(CollapseSpaces(s)) && SpacesAreBlanks(CollapseSpaces(s))
    decreases |s|
  {
    if s != [] {
      if IsJsSpace(s[0]) {
        var rest := StripStart(s, IsJsSpace);
        StripStartSpec(s, IsJsSpace);
        CollapseShape(rest);
        CollapseEnds(rest);
        var r' := CollapseSpaces(rest);
        assert CollapseSpaces(s) == [' '] + r';
      } else {
        CollapseShape(s[1..]);
        var r' := CollapseSpaces(s[1..]);
        assert CollapseSpaces(s) == [s[0]] + r';
      }
    }
  }

  /** Each maximal whitespace run leaves exactly one space behind, wherever it
      stands: between `a`, which does not end in whitespace, and `b`, which
      does not start with it. */
  lemma {:induction false} CollapseRun(a: string, w: string, b: string)
    requires a != [] ==> !IsJsSpace(a[|a| - 1])
    requires w != [] && forall k :: 0 <= k < |w| ==> IsJsSpace(w[k])
    requires b != [] ==> !IsJsSpace(b[0])
    ensures CollapseSpaces(a + w + b) == CollapseSpaces(a) + " " + CollapseSpaces(b)
    decreases |a|, 1
  {
    if a == [] {
      assert a + w + b == w + b && (w + b)[0] == w[0];
      StripStartRun(w, b, IsJsSpace);
    } else if IsJsSpace(a[0]) {
      CollapseRunAfterSpace(a, w, b);
    } else {
      CollapseRunAfterChar(a, w, b);
    }
  }

  /** `CollapseRun` when `a` starts with whitespace: that leading run becomes
      the first space, and the rest of `a` follows. */
  lemma {:induction false} CollapseRunAfterSpace(a: string, w: string, b: string)
    requires a != [] && IsJsSpace(a[0]) && !IsJsSpace(a[|a| - 1])
    requires w != [] && forall k :: 0 <= k < |w| ==> IsJsSpace(w[k])
    requires b != [] ==> !IsJsSpace(b[0])
    ensures CollapseSpaces(a + w + b) == CollapseSpaces(a) + " " + CollapseSpaces(b)
    decreases |a|, 0
  {
    var s := a + w + b;
    var rest := StripStart(a, IsJsSpace);
    StripStartSpec(a, IsJsSpace);
    assert rest != [] && rest[|rest| - 1] == a[|a| - 1];
    StripStartInside(a, w + b, IsJsSpace);
    assert s == a + (w + b) && s[0] == a[0];
    assert StripStart(s, IsJsSpace) == rest + w + b;
    CollapseRun(rest, w, b);
    var x, y := CollapseSpaces(rest), CollapseSpaces(b);
    assert CollapseSpaces(s) == [' '] + (x + " " + y);
    assert CollapseSpaces(a) == [' '] + x;
    AppendAssociative([' '], x + " ", y);
    AppendAssociative([' '], x, " ");
  }

  /** `CollapseRun` when `a` starts with another character, which is kept. */
  lemma {:induction false} CollapseRunAfterChar(a: string, w: string, b: string)
    requires a != [] && !IsJsSpace(a[0]) && !IsJsSpace(a[|a| - 1])
    requires w != [] && forall k :: 0 <= k < |w| ==> IsJsSpace(w[k])
    requires b != [] ==> !IsJsSpace(b[0])
    ensures CollapseSpaces(a + w + b) == CollapseSpaces(a) + " " + CollapseSpaces(b)
    decreases |a|, 0
  {
    var s, a' := a + w + b, a[1..];
    assert s[1..] == a' + w + b && s[0] == a[0];
    assert a' != [] ==> a'[|a'| - 1] == a[|a| - 1];
    CollapseRun(a', w, b);
    var x, y := CollapseSpaces(a'), CollapseSpaces(b);
    assert CollapseSpaces(s) == [a[0]] + (x + " " + y);
    assert CollapseSpaces(a) == [a[0]] + x;
    AppendAssociative([a[0]], x + " ", y);
    AppendAssociative([a[0]], x, " ");
  }

  /** Collapsing removes whitespace only. */
  lemma {:induction false} CollapseKeepsContent(s: string)
    ensures RemoveSpaces(CollapseSpaces(s)) == RemoveSpaces(s)
    decreases |s|
  {
    if s != [] {
      if IsJsSpace(s[0]) {
        var rest := StripStart(s, IsJsSpace);
        CollapseKeepsContent(rest);
        RemoveSpacesStripStart(s);
        FilterAppend([' '], CollapseSpaces(rest), IsJsNonSpace);
      } else {
        CollapseKeepsContent(s[1..]);
        assert s == [s[0]] + s[1..];
        FilterAppend([s[0]], s[1..], IsJsNonSpace);
        FilterAppend([s[0]], CollapseSpaces(s[1..]), IsJsNonSpace);
      }
    }
  }

  predicate NoUpper(s: string)
  {
    forall k :: 0 <= k < |s| ==> !IsAsciiUpper(s[k])
  }

  /** A slice of a collapsed, lower-case string is collapsed and lower-case. */
  lemma SliceKeepsShape(c: string, i: nat, j: nat)
    requires i <= j <= |c|
    requires NoAdjacentSpaces(c) && SpacesAreBlanks(c) && NoUpper(c)
    ensures NoAdjacentSpaces(c[i..j]) && SpacesAreBlanks(c[i..j]) && NoUpper(c[i..j])
  {
    assert forall k :: 0 <= k < j - i ==> c[i..j][k] == c[i + k];
  }

  /** Collapsing a lower-case string keeps it lower-case. */
  lemma CollapseNoUpper(s: string)
    requires NoUpper(s)
    ensures NoUpper(CollapseSpaces(s))
  {
    var c := CollapseSpaces(s);
    CollapseChars(s);
    forall k | 0 <= k < |c| ensures !IsAsciiUpper(c[k]) {
      assert c[k] in c;
    }
  }

  /** The identifier normaliser `toLowerCase().replace(/\s+/g, ' ', '_').trim()`. */
  function Normalize(s: string): string
  {
    Strip(CollapseSpaces(Lower(s)), IsJsSpace)
  }

  /** A normalised identifier has no whitespace at either end, single spaces
      as its only whitespace, and no upper-case letter. */
  lemma NormalizeIsNormalForm(s: string)
    ensures IsNormalForm(Normalize(s))
  {
    var lowered := Lower(s);
    var c := CollapseSpaces(lowered);
    CollapseShape(lowered);
    CollapseNoUpper(lowered);
    var r := Strip(c, IsJsSpace);
    StripSlice(c, IsJsSpace);
    var i := |c| - |StripStart(c, IsJsSpace)|;
    SliceKeepsShape(c, i, i + |r|);
  }

  lemma RemoveSpacesStripEnd(s: string)
    ensures RemoveSpaces(StripEnd(s, IsJsSpace)) == RemoveSpaces(s)
  {
    var t := StripEnd(s, IsJsSpace);
    StripEndSpec(s, IsJsSpace);
    assert s == t + s[|t|..];
    FilterAppend(t, s[|t|..], IsJsNonSpace);
    FilterDropsAll(s[|t|..], IsJsNonSpace);
  }

  /** The normaliser keeps every non-whitespace character, lower-cased, in order. */
  lemma NormalizeKeepsContent(s: string)
    ensures RemoveSpaces(Normalize(s)) == RemoveSpaces(Lower(s))
  {
    var c := CollapseSpaces(Lower(s));
    CollapseKeepsContent(Lower(s));
    RemoveSpacesStripStart(c);
    RemoveSpacesStripEnd(StripStart(c, IsJsSpace));
  }

  /** A string that is already collapsed is left alone by collapsing. */
  lemma {:induction false} CollapseFixed(s: string)
    requires NoAdjacentSpaces(s) && SpacesAreBlanks(s)
    ensures CollapseSpaces(s) == s
    decreases |s|
  {
    if s != [] {
      if IsJsSpace(s[0]) {
        assert StripStart(s, IsJsSpace) == s[1..] by {
          if |s| > 1 {
            assert !IsJsSpace(s[1]);
          }
        }
      }
      CollapseFixed(s[1..]);
    }
  }

  /** A name the normaliser produces: lower-case, trimmed, and with single
      spaces as its only whitespace. */
  predicate IsNormalForm(s: string)
  {
    && (s != [] ==> !IsJsSpace(s[0]) && !IsJsSpace(s[|s| - 1]))
    && NoAdjacentSpaces(s) && SpacesAreBlanks(s) && NoUpper(s)
  }

  /** A word of lower-case letters is a normal form. */
  lemma LettersAreNormalForm(w: string)
    requires forall k :: 0 <= k < |w| ==> 'a' <= w[k] <= 'z'
    ensures IsNormalForm(w)
  {
  }

  /** Two normal forms joined by one space make a normal form: single spaces
      between words survive normalisation. */
  lemma JoinNormalForms(a: string, b: string)
    requires a != [] && b != [] && IsNormalForm(a) && IsNormalForm(b)
    ensures IsNormalForm(a + " " + b)
  {
    var s := a + " " + b;
    assert forall k :: 0 <= k < |a| ==> s[k] == a[k];
    assert forall k :: |a| + 1 <= k < |s| ==> s[k] == b[k - |a| - 1];
    assert s[|a|] == ' ';
  }

  /** The normaliser leaves exactly the normal forms unchanged. */
  lemma NormalizeFixesNormalForms(s: string)
    ensures Normalize(s) == s <==> IsNormalForm(s)
  {
    NormalizeIsNormalForm(s);
    if IsNormalForm(s) {
      LowerUnchanged(s);
      CollapseFixed(s);
      StripUnchanged(s, IsJsSpace);
    }
  }

  /** Normalising twice is the same as normalising once. */
  lemma NormalizeIdempotent(s: string)
    ensures Normalize(Normalize(s)) == Normalize(s)
  {
    NormalizeIsNormalForm(s);
    NormalizeFixesNormalForms(Normalize(s));
  }

  /** The name shown in the `providers.tf` preview: the same rule without the trim. */
  function PreviewName(s: string): string
  {
    CollapseSpaces(Lower(s))
  }

  lemma LowerCharKeepsSpace(c: char)
    ensures IsJsSpace(LowerChar(c)) <==> IsJsSpace(c)
  {
  }

  /** For a name with no whitespace at either end, such as every catalog
      provider, the preview shows the same name as the generated snippet. */
  lemma PreviewAgreesWithNormalize(s: string)
    requires s != [] ==> !IsJsSpace(s[0]) && !IsJsSpace(s[|s| - 1])
    ensures PreviewName(s) == Normalize(s)
  {
    if s != [] {
      LowerCharKeepsSpace(s[0]);
      LowerCharKeepsSpace(s[|s| - 1]);
      CollapseEnds(Lower(s));
    }
    StripUnchanged(PreviewName(s), IsJsSpace);
  }

  /** The `providers.tf` preview block. */
  function ProviderPreview(provider: string): string
  {
    "provider \"" + PreviewName(provider) + "\" {\n  # Please configure the provider as per your requirements\n}"
  }

  // ---------------------------------------------------------------- synthesiser

  /** The two configuration blocks the generator writes, for identifiers that
      are already normalised. */
  function Snippet(providerId: string, resourceId: string): string
  {
    "provider \"" + providerId + "\" {\n  # Configuration options\n}\n\nresource \""
    + resourceId + "\" \"example\" {\n  # Resource configuration\n}"
  }

  lemma SnippetEnds(providerId: string, resourceId: string)
    ensures var body := Snippet(providerId, resourceId); body != [] && body[0] == 'p' && body[|body| - 1] == '}'
  {
  }

  /** The template literal before `.trim()`: it opens with a newline and ends
      with a newline and the four spaces of the closing backtick's indentation. */
  function CodeTemplate(providerId: string, resourceId: string): string
  {
    "\n" + Snippet(providerId, resourceId) + "\n    "
  }

  /** Trimming the template's padding around a string that starts and ends
      with something other than whitespace gives back that string. */
  lemma TrimPadding(x: string)
    requires x != [] && !IsJsSpace(x[0]) && !IsJsSpace(x[|x| - 1])
    ensures Strip("\n" + x + "\n    ", IsJsSpace) == x
  {
    StripPadded("\n", x, "\n    ", IsJsSpace);
  }

  lemma TemplateTrim(providerId: string, resourceId: string)
    ensures Strip(CodeTemplate(providerId, resourceId), IsJsSpace) == Snippet(providerId, resourceId)
  {
    SnippetEnds(providerId, resourceId);
    TrimPadding(Snippet(providerId, resourceId));
  }

  /** The code to emit: the template with its padding trimmed, which is exactly
      the two blocks for the normalised provider and resource names. */
  function SynthesizeCode(provider: string, resource: string): string
  {
    Strip(CodeTemplate(Normalize(provider), Normalize(resource)), IsJsSpace)
  }

  lemma SynthesizeCodeSpec(provider: string, resource: string)
    ensures SynthesizeCode(provider, resource) == Snippet(Normalize(provider), Normalize(resource))
  {
    TemplateTrim(Normalize(provider), Normalize(resource));
  }

  // ---------------------------------------------------------------- component state

  /** A snapshot of the component: the six `useState` fields, and the code and
      counter `i` that the running interval callback closes over. */
  datatype Ui = Ui(
    selectedProvider: string,
    searchTerm: string,
    selectedResource: string,
    resourceOptions: seq<Resource>,
    generatedCode: string,
    isGenerating: bool,
    code: string,
    i: nat)

  const Initial := Ui("", "", "", [], "", false, "", 0)

  /** What every reachable state satisfies. */
  ghost predicate Invariant(u: Ui)
  {
    && (u.selectedProvider == "" ==> u.resourceOptions == [] && u.selectedResource == "")
    && (u.selectedProvider != "" ==> u.resourceOptions == ResourcesOf(u.selectedProvider))
    && (u.selectedResource != "" ==> u.selectedResource in Names(u.resourceOptions))
    && (u.isGenerating ==> u.i <= |u.code|)
  }

  /** `handleProviderSelect`, followed by the effect, which re-derives the
      options when the selected provider changed to a non-empty one. */
  function ProviderSelected(u: Ui, provider: string): Ui
  {
    var v := u.(selectedProvider := provider, selectedResource := "", generatedCode := "");
    if provider != "" && provider != u.selectedProvider then v.(resourceOptions := ResourcesOf(provider)) else v
  }

  function ResourceSelected(u: Ui, resource: string): Ui
  {
    u.(selectedResource := resource)
  }

  function SearchChanged(u: Ui, term: string): Ui
  {
    u.(searchTerm := term)
  }

  /** The entries of the resource drop-down. */
  function FilteredResources(u: Ui): seq<Resource>
  {
    FilterResources(u.resourceOptions, u.searchTerm)
  }

  /** The generate button is enabled. */
  predicate CanGenerate(u: Ui)
  {
    !u.isGenerating && u.selectedResource != ""
  }

  /** `generateCode`: raise the flag, synthesise the snippet and start the
      interval with its counter at zero. `generatedCode` is NOT cleared. */
  function GenerateStarted(u: Ui): Ui
  {
    u.(isGenerating := true, code := SynthesizeCode(u.selectedProvider, u.selectedResource), i := 0)
  }

  /** One firing of the 50 ms interval. */
  function Ticked(u: Ui): Ui
    requires u.isGenerating
  {
    if u.i < |u.code| then u.(generatedCode := u.generatedCode + [u.code[u.i]], i := u.i + 1)
    else u.(isGenerating := false)
  }

  /** `n` firings of the interval; once it is cleared nothing fires. */
  function Ticks(u: Ui, n: nat): Ui
    decreases n
  {
    if n == 0 || !u.isGenerating then u else Ticks(Ticked(u), n - 1)
  }

  /** Selecting a provider offers exactly its resources, clears the selected
      resource and the generated code, and keeps the search term and the flag. */
  lemma ProviderSelectedSpec(u: Ui, provider: string)
    requires Invariant(u) && provider != ""
    ensures var v := ProviderSelected(u, provider);
      && Invariant(v)
      && v.resourceOptions == ResourcesOf(provider)
      && v.selectedProvider == provider && v.selectedResource == "" && v.generatedCode == ""
      && v.searchTerm == u.searchTerm && v.isGenerating == u.isGenerating
  {
  }

  /** Selecting one of the drop-down's entries keeps the selected resource
      among the selected provider's catalog entries. */
  lemma ResourceSelectedSpec(u: Ui, resource: string)
    requires Invariant(u)
    requires resource == "" || resource in Names(FilteredResources(u))
    ensures Invariant(ResourceSelected(u, resource))
  {
    if resource != "" {
      var shown := FilteredResources(u);
      var k :| 0 <= k < |shown| && Names(shown)[k] == resource;
      FilterResourcesSpec(u.resourceOptions, u.searchTerm);
      NameOfMember(u.resourceOptions, shown[k]);
    }
  }

  lemma GenerateStartedKeepsInvariant(u: Ui)
    requires Invariant(u) && CanGenerate(u)
    ensures Invariant(GenerateStarted(u)) && GenerateStarted(u).isGenerating
  {
  }

  lemma TickedKeepsInvariant(u: Ui)
    requires Invariant(u) && u.isGenerating
    ensures Invariant(Ticked(u))
  {
  }

  /** While the counter has not reached the end, `n` ticks append the next `n`
      characters of the code and change nothing else. */
  lemma {:induction false} TicksEmit(u: Ui, n: nat)
    requires u.isGenerating && u.i + n <= |u.code|
    ensures Ticks(u, n) == u.(generatedCode := u.generatedCode + u.code[u.i..u.i + n], i := u.i + n)
    decreases n
  {
    if n > 0 {
      var v := Ticked(u);
      TicksEmit(v, n - 1);
      var c, i := u.code, u.i;
      assert c[i..i + n] == [c[i]] + c[i + 1..i + n] by {
        assert c[i..i + n][1..] == c[i + 1..i + n];
      }
      AppendAssociative(u.generatedCode, [c[i]], c[i + 1..i + n]);
    }
  }

  /** Firing once per character of the code, then once more. */
  lemma EmitAll(v: Ui)
    requires v.isGenerating && v.i == 0
    ensures var done := Ticks(v, |v.code|);
      && done == v.(generatedCode := v.generatedCode + v.code, i := |v.code|)
      && Ticked(done) == v.(generatedCode := v.generatedCode + v.code, isGenerating := false, i := |v.code|)
  {
    TicksEmit(v, |v.code|);
    assert v.code[0..|v.code|] == v.code;
  }

  /** A whole emission: after `|code|` ticks the generated code is the old text
      followed by the snippet; the next tick clears the interval and lowers the
      flag, and nothing else has changed. */
  lemma EmissionCompletes(u: Ui)
    requires CanGenerate(u)
    ensures var code := SynthesizeCode(u.selectedProvider, u.selectedResource);
      var done := Ticks(GenerateStarted(u), |code|);
      && done.isGenerating
      && done.generatedCode == u.generatedCode + code
      && Ticked(done) == u.(generatedCode := u.generatedCode + code, code := code, i := |code|)
  {
    var v := GenerateStarted(u);
    assert v == u.(isGenerating := true, code := v.code, i := 0);
    EmitAll(v);
  }

  /** Selecting another provider mid-emission does not stop the interval: the
      cleared output then receives only the rest of the old snippet. */
  lemma ProviderSwitchMidEmission(u: Ui, provider: string)
    requires u.isGenerating && u.i <= |u.code|
    ensures Ticks(ProviderSelected(u, provider), |u.code| - u.i).generatedCode == u.code[u.i..]
  {
    TicksEmit(ProviderSelected(u, provider), |u.code| - u.i);
  }

  /** The component. Each handler and each interval firing is a method whose
      new state is the step function of the old one. */
  class TerraformGenerator {
    var selectedProvider: string
    var searchTerm: string
    var selectedResource: string
    var resourceOptions: seq<Resource>
    var generatedCode: string
    var isGenerating: bool
    var code: string
    var i: nat

    function State(): Ui
      reads this
    {
      Ui(selectedProvider, searchTerm, selectedResource, resourceOptions, generatedCode, isGenerating, code, i)
    }

    ghost predicate Valid()
      reads this
    {
      Invariant(State())
    }

    constructor ()
      ensures State() == Initial && Valid()
    {
      selectedProvider, searchTerm, selectedResource := "", "", "";
      resourceOptions, generatedCode, isGenerating := [], "", false;
      code, i := "", 0;
    }

    method SelectProvider(provider: string)
      requires Valid() && IsButtonName(provider)
      modifies this
      ensures State() == ProviderSelected(old(State()), provider) && Valid()
    {
      ghost var before := State();
      ButtonNameNonEmpty(provider);
      var changed := provider != selectedProvider;
      selectedProvider := provider;
      selectedResource := "";
      generatedCode := "";
      if provider != "" && changed {
        resourceOptions := ResourcesOf(provider);
      }
      assert State() == before.(selectedProvider := provider, selectedResource := "", generatedCode := "",
                                resourceOptions := resourceOptions);
      ProviderSelectedSpec(before, provider);
    }

    method SetSearch(term: string)
      requires Valid()
      modifies this
      ensures State() == SearchChanged(old(State()), term) && Valid()
    {
      ghost var before := State();
      searchTerm := term;
      assert State() == before.(searchTerm := term);
    }

    method SelectResource(resource: string)
      requires Valid()
      requires resource == "" || resource in Names(FilteredResources(State()))
      modifies this
      ensures State() == ResourceSelected(old(State()), resource) && Valid()
    {
      ghost var before := State();
      ResourceSelectedSpec(before, resource);
      selectedResource := resource;
      assert State() == before.(selectedResource := resource);
    }

    method StartGenerate()
      requires Valid() && CanGenerate(State())
      modifies this
      ensures State() == GenerateStarted(old(State())) && Valid()
    {
      ghost var before := State();
      var provider, resource := selectedProvider, selectedResource;
      var snippet := SynthesizeCode(provider, resource);
      isGenerating := true;
      code := snippet;
      i := 0;
      assert State() == before.(isGenerating := true, code := code, i := 0);
      GenerateStartedKeepsInvariant(before);
    }

    method Tick()
      requires Valid() && isGenerating
      modifies this
      ensures State() == Ticked(old(State())) && Valid()
    {
      ghost var before := State();
      TickedKeepsInvariant(before);
      if i < |code| {
        generatedCode := generatedCode + [code[i]];
        i := i + 1;
        assert State() == before.(generatedCode := generatedCode, i := i);
      } else {
        isGenerating := false;
        assert State() == before.(isGenerating := false);
      }
    }
  }
}

/** Worked instances of the frontend rules on the catalog's own names. */
module FrontendExamples {
  import opened Strings
  import opened Frontend

  /** Choosing Amazon Web Services offers its two catalog resources. */
  lemma ResourcesOfAmazon()
    ensures ResourcesOf("Amazon Web Services")
         == [Resource("EC2 Instance", "Amazon Web Services"), Resource("S3 Bucket", "Amazon Web Services")]
  {
  }

  lemma LowerGoogle()
    ensures Lower("Google Cloud Platform") == "google cloud platform"
  {
  }

  lemma GoogleIsNormalForm()
    ensures IsNormalForm("google cloud platform")
  {
    LettersAreNormalForm("google");
    LettersAreNormalForm("cloud");
    LettersAreNormalForm("platform");
    JoinNormalForms("google", "cloud");
    assert "google" + " " + "cloud" == "google cloud";
    JoinNormalForms("google cloud", "platform");
    assert "google cloud" + " " + "platform" == "google cloud platform";
  }

  /** Multi-word names keep their spaces: Google's provider name becomes
      `google cloud platform`, with no underscores. */
  lemma NormalizeGoogle()
    ensures Normalize("Google Cloud Platform") == "google cloud platform"
  {
    var name := "google cloud platform";
    LowerGoogle();
    GoogleIsNormalForm();
    CollapseFixed(name);
    StripUnchanged(name, IsJsSpace);
  }
}
