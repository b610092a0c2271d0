/** The request handling of the backend (backend/backend.py): the validation
    and snippet builder of the asynchronous `generate_terraform`, the Flask
    variant that only checks presence, and the two string rules of the
    documentation scraper (the `name - description` option line and the
    `<provider>_` resource prefix), lifted out of their HTTP and HTML context. */
module Backend {
  import opened Wrappers
  import opened Strings
  import opened Seqs

  // ---------------------------------------------------------------- requests

  /** A parsed JSON value, as Python sees it. */
  datatype Value =
    | Str(s: string)
    | Int(n: int)
    | Bool(b: bool)
    | Float(x: real)
    | Null
    | List(items: seq<Value>)
    | Object(entries: seq<(string, Value)>)

  /** Python truthiness: `if value:`. */
  predicate Truthy(v: Value)
  {
    match v
    case Str(s) => s != ""
    case Int(n) => n != 0
    case Bool(b) => b
    case Float(x) => x != 0.0
    case Null => false
    case List(items) => items != []
    case Object(entries) => entries != []
  }

  /** `isinstance(value, (str, int, bool))`. */
  predicate IsScalar(v: Value)
  {
    v.Str? || v.Int? || v.Bool?
  }

  /** The body of a generate request: `provider` and `resource` are `None` when
      the key is missing, and `options` is the option dictionary's items in
      insertion order (empty when the key is missing). */
  datatype Request = Request(provider: Option<string>, resource: Option<string>, options: seq<(string, Value)>)

  /** The JSON reply: `{"error": message}` with status 400, or `{"terraform": code}`. */
  datatype Response = Error(message: string) | Terraform(code: string)

  const ProviderUrls: map<string, string> := map[
    "aws" := "https://registry.terraform.io/providers/hashicorp/aws/latest/docs",
    "azure" := "https://registry.terraform.io/providers/hashicorp/azurerm/latest/docs",
    "gcp" := "https://registry.terraform.io/providers/hashicorp/google/latest/docs"
  ]

  const MissingMessage := "Provider and resource must be specified"

  // ---------------------------------------------------------------- name pattern

  predicate IsWordChar(c: char)
  {
    ('a' <= c <= 'z') || ('A' <= c <= 'Z') || ('0' <= c <= '9') || c == '_'
  }

  /** A non-empty string of `[a-zA-Z0-9_]` characters. */
  predicate IsWord(s: string)
  {
    s != [] && forall k :: 0 <= k < |s| ==> IsWordChar(s[k])
  }

  /** How far the greedy `[a-zA-Z0-9_]+` runs from the start of `s`. */
  function WordRun(s: string): (n: nat)
    ensures n <= |s|
    ensures forall k :: 0 <= k < n ==> IsWordChar(s[k])
    ensures n < |s| ==> !IsWordChar(s[n])
  {
    if s != [] && IsWordChar(s[0]) then 1 + WordRun(s[1..]) else 0
  }

  /** `re.match(r'^[a-zA-Z0-9_]+$', s)`: the run must reach the end of the
      string, or stop just before a final newline, which `$` also accepts. */
  predicate MatchesName(s: string)
  {
    var n := WordRun(s);
    n > 0 && (n == |s| || (n == |s| - 1 && s[n] == '\n'))
  }

  /** The names accepted are exactly the words, and the words followed by one newline. */
  lemma MatchesNameSpec(s: string)
    ensures MatchesName(s) <==> IsWord(s) || (s != [] && s[|s| - 1] == '\n' && IsWord(s[..|s| - 1]))
  {
    if s != [] {
      assert forall k :: 0 <= k < |s| - 1 ==> s[..|s| - 1][k] == s[k];
    }
    assert !IsWordChar('\n');
  }

  // ---------------------------------------------------------------- validation

  /** `not provider or not resource`, negated. */
  predicate Present(req: Request)
  {
    req.provider.Some? && req.provider.value != "" && req.resource.Some? && req.resource.value != ""
  }

  /** The checks on one option: its name first, then its value's type. */
  function OptionError(option: (string, Value)): Option<string>
  {
    if !MatchesName(option.0) then Some("Invalid option name: " + option.0)
    else if !IsScalar(option.1) then Some("Invalid value type for option: " + option.0)
    else None
  }

  /** The option loop with its early return: the first failing option's error. */
  function OptionsError(options: seq<(string, Value)>): Option<string>
  {
    if options == [] then None
    else if OptionError(options[0]).Some? then OptionError(options[0])
    else OptionsError(options[1..])
  }

  /** The options pass exactly when each of them does. */
  lemma {:induction false} OptionsErrorNone(options: seq<(string, Value)>)
    ensures OptionsError(options) == None <==> forall k :: 0 <= k < |options| ==> OptionError(options[k]) == None
  {
    if options != [] {
      OptionsErrorNone(options[1..]);
      assert forall k :: 1 <= k < |options| ==> options[1..][k - 1] == options[k];
    }
  }

  /** Options are checked in insertion order: the first failing one decides the error. */
  lemma {:induction false} OptionsErrorFirst(options: seq<(string, Value)>, k: nat)
    requires k < |options| && OptionError(options[k]).Some?
    requires forall j :: 0 <= j < k ==> OptionError(options[j]) == None
    ensures OptionsError(options) == OptionError(options[k])
  {
    if k > 0 {
      OptionsErrorFirst(options[1..], k - 1);
    }
  }

  /** The early-return checks of the asynchronous `generate_terraform`. */
  function Validate(req: Request): Option<string>
  {
    if !Present(req) then Some(MissingMessage)
    else if req.provider.value !in ProviderUrls then Some("Invalid provider")
    else if !MatchesName(req.resource.value) then Some("Invalid resource name")
    else OptionsError(req.options)
  }

  predicate AllScalar(options: seq<(string, Value)>)
  {
    forall k :: 0 <= k < |options| ==> IsScalar(options[k].1)
  }

  /** A request passes validation exactly when every check holds. */
  lemma ValidateSpec(req: Request)
    ensures Validate(req) == None <==>
      && Present(req)
      && req.provider.value in ProviderUrls
      && MatchesName(req.resource.value)
      && forall k :: 0 <= k < |req.options| ==> MatchesName(req.options[k].0) && IsScalar(req.options[k].1)
    ensures Validate(req) == None ==> AllScalar(req.options)
  {
    OptionsErrorNone(req.options);
    assert forall k :: 0 <= k < |req.options| ==>
      (OptionError(req.options[k]) == None <==> MatchesName(req.options[k].0) && IsScalar(req.options[k].1));
  }

  // ---------------------------------------------------------------- rendering

  function DigitChar(d: nat): (c: char)
    requires d < 10
    ensures '0' <= c <= '9'
  {
    ('0' as int + d) as char
  }

  /** The decimal digits of `n`, most significant first. */
  function Digits(n: nat): (s: string)
    ensures s != [] && forall k :: 0 <= k < |s| ==> '0' <= s[k] <= '9'
    decreases n
  {
    if n < 10 then [DigitChar(n)] else Digits(n / 10) + [DigitChar(n % 10)]
  }

  /** The number a string of decimal digits denotes. */
  function DigitsValue(s: string): int
  {
    if s == [] then 0 else DigitsValue(s[..|s| - 1]) * 10 + (s[|s| - 1] as int - '0' as int)
  }

  lemma {:induction false} DigitsRoundTrip(n: nat)
    ensures DigitsValue(Digits(n)) == n
    decreases n
  {
    if n >= 10 {
      DigitsRoundTrip(n / 10);
      var s := Digits(n);
      assert s[..|s| - 1] == Digits(n / 10);
    }
  }

  /** `str(value)` for the accepted value types. The validation rejects every
      other type before any code is written, so those render as nothing. */
  function Display(v: Value): string
  {
    match v
    case Str(s) => s
    case Int(n) => if n < 0 then "-" + Digits(-n) else Digits(n)
    case Bool(b) => if b then "True" else "False"
    case _ => ""
  }

  /** Reading back `str(n)`. */
  function ReadInt(s: string): int
  {
    if s != [] && s[0] == '-' then -DigitsValue(s[1..]) else DigitsValue(s)
  }

  /** Integers are written in decimal, without loss. */
  lemma DisplayIntRoundTrip(n: int)
    ensures ReadInt(Display(Int(n))) == n
  {
    if n < 0 {
      DigitsRoundTrip(-n);
      assert ("-" + Digits(-n))[1..] == Digits(-n);
    } else {
      DigitsRoundTrip(n);
    }
  }

  /** The opening line `resource "<resource>" "example" {`. */
  function Header(resource: string): string
  {
    "resource \"" + resource + "\" \"example\" {\n"
  }

  const Footer := "}\n"

  /** One option line `  <name> = "<text>"`. */
  function Line(name: string, text: string): string
  {
    "  " + name + " = \"" + text + "\"\n"
  }

  /** `if value:`, the test that picks the options to write. */
  predicate Selected(option: (string, Value))
  {
    Truthy(option.1)
  }

  /** The line an option contributes in the asynchronous variant. */
  function ValueLine(option: (string, Value)): string
  {
    if Selected(option) then Line(option.0, Display(option.1)) else ""
  }

  /** The option lines of the asynchronous variant, in input order. */
  function OptionLines(options: seq<(string, Value)>): string
  {
    if options == [] then "" else ValueLine(options[0]) + OptionLines(options[1..])
  }

  /** The line an option contributes in the Flask variant. */
  function PlaceholderLine(option: (string, Value)): string
  {
    if Selected(option) then Line(option.0, "placeholder_value") else ""
  }

  function PlaceholderLines(options: seq<(string, Value)>): string
  {
    if options == [] then "" else PlaceholderLine(options[0]) + PlaceholderLines(options[1..])
  }

  /** The lines of consecutive option lists follow one another. */
  lemma {:induction false} OptionLinesAppend(a: seq<(string, Value)>, b: seq<(string, Value)>)
    ensures OptionLines(a + b) == OptionLines(a) + OptionLines(b)
  {
    if a != [] {
      OptionLinesAppend(a[1..], b);
      assert (a + b)[0] == a[0] && (a + b)[1..] == a[1..] + b;
      assert OptionLines(a + b) == ValueLine(a[0]) + OptionLines(a[1..] + b);
    } else {
      assert a + b == b;
    }
  }

  lemma {:induction false} PlaceholderLinesAppend(a: seq<(string, Value)>, b: seq<(string, Value)>)
    ensures PlaceholderLines(a + b) == PlaceholderLines(a) + PlaceholderLines(b)
  {
    if a != [] {
      PlaceholderLinesAppend(a[1..], b);
      assert (a + b)[0] == a[0] && (a + b)[1..] == a[1..] + b;
      assert PlaceholderLines(a + b) == PlaceholderLine(a[0]) + PlaceholderLines(a[1..] + b);
    } else {
      assert a + b == b;
    }
  }

  /** Options with a falsy value contribute nothing: the lines are those of the
      selected options alone. */
  lemma {:induction false} OptionLinesSelected(options: seq<(string, Value)>)
    ensures OptionLines(options) == OptionLines(Filter(options, Selected))
  {
    if options != [] {
      OptionLinesSelected(options[1..]);
      var rest := Filter(options[1..], Selected);
      if Selected(options[0]) {
        var kept := [options[0]] + rest;
        assert Filter(options, Selected) == kept;
        assert kept[0] == options[0] && kept[1..] == rest;
        assert OptionLines(kept) == ValueLine(options[0]) + OptionLines(rest);
      } else {
        assert Filter(options, Selected) == rest;
        assert ValueLine(options[0]) == "";
      }
    }
  }

  /** The values Flask writes: every selected option's value becomes the
      string `placeholder_value`, every other one stays falsy. */
  function Placeholders(options: seq<(string, Value)>): (r: seq<(string, Value)>)
    ensures |r| == |options| && AllScalar(r)
  {
    seq(|options|, k requires 0 <= k < |options| =>
      (options[k].0, if Selected(options[k]) then Str("placeholder_value") else Str("")))
  }

  /** The Flask variant writes the asynchronous variant's lines for the same
      names with every value replaced by `placeholder_value`. */
  lemma {:induction false} PlaceholderLinesAgree(options: seq<(string, Value)>)
    ensures PlaceholderLines(options) == OptionLines(Placeholders(options))
  {
    if options != [] {
      PlaceholderLinesAgree(options[1..]);
      assert Placeholders(options)[1..] == Placeholders(options[1..]);
    }
  }

  /** The whole block: header, option lines, closing brace. */
  function ResourceBlock(resource: string, lines: string): string
  {
    Header(resource) + lines + Footer
  }

  // ---------------------------------------------------------------- the two handlers

  /** What the asynchronous `generate_terraform` replies. */
  function Generate(req: Request): Response
  {
    match Validate(req)
    case Some(message) => Error(message)
    case None => Terraform(ResourceBlock(req.resource.value, OptionLines(req.options)))
  }

  /** What the Flask `generate_terraform` replies. */
  function GenerateFlask(req: Request): Response
  {
    if !Present(req) then Error(MissingMessage)
    else Terraform(ResourceBlock(req.resource.value, PlaceholderLines(req.options)))
  }

  /** The presence check runs first in both handlers. */
  lemma PresenceCheckedFirst(req: Request)
    requires !Present(req)
    ensures Generate(req) == Error(MissingMessage) && GenerateFlask(req) == Error(MissingMessage)
  {
  }

  /** A reply carries code only when every check passed. */
  lemma GenerateSucceeds(req: Request)
    ensures Generate(req).Terraform? <==>
      && Present(req)
      && req.provider.value in ProviderUrls
      && MatchesName(req.resource.value)
      && forall k :: 0 <= k < |req.options| ==> MatchesName(req.options[k].0) && IsScalar(req.options[k].1)
  {
    ValidateSpec(req);
  }

  /** The Flask handler refuses only a missing provider or resource, so it
      accepts every request the asynchronous one accepts, and writes a line for
      the same options. */
  lemma FlaskAcceptsMore(req: Request)
    ensures GenerateFlask(req).Error? <==> !Present(req)
    ensures Generate(req).Terraform? ==>
      GenerateFlask(req) == Terraform(ResourceBlock(req.resource.value, OptionLines(Placeholders(req.options))))
  {
    PlaceholderLinesAgree(req.options);
  }

  /** The option loop of the validation: the first option whose name does not
      match or whose value has another type ends it with that option's error. */
  method CheckOptions(options: seq<(string, Value)>) returns (error: Option<string>)
    ensures error == OptionsError(options)
  {
    for k := 0 to |options|
      invariant OptionsError(options) == OptionsError(options[k..])
    {
      var (option, value) := options[k];
      if !MatchesName(option) {
        return Some("Invalid option name: " + option);
      }
      if !IsScalar(value) {
        return Some("Invalid value type for option: " + option);
      }
      assert options[k..][1..] == options[k + 1..];
    }
    return None;
  }

  lemma OptionLinesSnoc(options: seq<(string, Value)>, k: nat)
    requires k < |options|
    ensures OptionLines(options[..k + 1]) == OptionLines(options[..k]) + ValueLine(options[k])
  {
    var option := options[k];
    OptionLinesAppend(options[..k], [option]);
    assert options[..k + 1] == options[..k] + [option];
    assert OptionLines([option]) == ValueLine(option) + OptionLines([]);
  }

  lemma PlaceholderLinesSnoc(options: seq<(string, Value)>, k: nat)
    requires k < |options|
    ensures PlaceholderLines(options[..k + 1]) == PlaceholderLines(options[..k]) + PlaceholderLine(options[k])
  {
    var option := options[k];
    PlaceholderLinesAppend(options[..k], [option]);
    assert options[..k + 1] == options[..k] + [option];
    assert PlaceholderLines([option]) == PlaceholderLine(option) + PlaceholderLines([]);
  }

  /** The code loop: the header, one `code +=` per selected option, the footer. */
  method BuildCode(resource: string, options: seq<(string, Value)>) returns (code: string)
    ensures code == ResourceBlock(resource, OptionLines(options))
  {
    code := Header(resource);
    assert options[..0] == [];
    for k := 0 to |options|
      invariant code == Header(resource) + OptionLines(options[..k])
    {
      var option := options[k];
      OptionLinesSnoc(options, k);
      ghost var before := code;
      if Truthy(option.1) {
        code := code + Line(option.0, Display(option.1));
      }
      assert code == before + ValueLine(option);
      AppendAssociative(Header(resource), OptionLines(options[..k]), ValueLine(option));
    }
    assert options[..|options|] == options;
    code := code + Footer;
  }

  /** The asynchronous `generate_terraform`: the checks with their early
      returns, then the code. */
  method GenerateTerraform(req: Request) returns (resp: Response)
    ensures resp == Generate(req)
  {
    if req.provider.None? || req.provider.value == "" || req.resource.None? || req.resource.value == "" {
      return Error(MissingMessage);
    }
    var provider, resource, options := req.provider.value, req.resource.value, req.options;
    if provider !in ProviderUrls {
      return Error("Invalid provider");
    }
    if !MatchesName(resource) {
      return Error("Invalid resource name");
    }
    var error := CheckOptions(options);
    if error.Some? {
      return Error(error.value);
    }
    ValidateSpec(req);
    var code := BuildCode(resource, options);
    return Terraform(code);
  }

  /** The Flask `generate_terraform`: the presence check, then one
      `placeholder_value` line per selected option. */
  method GenerateTerraformFlask(req: Request) returns (resp: Response)
    ensures resp == GenerateFlask(req)
  {
    if req.provider.None? || req.provider.value == "" || req.resource.None? || req.resource.value == "" {
      return Error(MissingMessage);
    }
    var resource, options := req.resource.value, req.options;
    var code := Header(resource);
    assert options[..0] == [];
    for k := 0 to |options|
      invariant code == Header(resource) + PlaceholderLines(options[..k])
    {
      var option := options[k];
      PlaceholderLinesSnoc(options, k);
      ghost var before := code;
      if Truthy(option.1) {
        code := code + Line(option.0, "placeholder_value");
      }
      assert code == before + PlaceholderLine(option);
      AppendAssociative(Header(resource), PlaceholderLines(options[..k]), PlaceholderLine(option));
    }
    assert options[..|options|] == options;
    code := code + Footer;
    return Terraform(code);
  }

  // ---------------------------------------------------------------- scraper string rules

  /** One `<li>` of the Argument Reference list: strip it, split it at the
      first ` - `, and strip both halves; a line without the separator yields nothing. */
  function ParseOptionLine(text: string): Option<(string, string)>
  {
    var line := Strip(text, IsPySpace);
    match IndexOf(line, " - ")
    case None => None
    case Some(k) => Some((Strip(line[..k], IsPySpace), Strip(line[k + 3..], IsPySpace)))
  }

  /** A line is skipped exactly when its stripped text has no separator. */
  lemma ParseOptionLineNone(text: string)
    ensures ParseOptionLine(text).None? <==> !Contains(Strip(text, IsPySpace), " - ")
  {
  }

  predicate HasPySpace(s: string)
  {
    exists k :: 0 <= k < |s| && IsPySpace(s[k])
  }

  /** A line written as `<name> - <description>`, with any surrounding
      whitespace, gives back the name and the description, provided the name
      has no whitespace and the description is non-empty and unpadded. */
  lemma ParseOptionLineRoundTrip(pre: string, name: string, description: string, post: string)
    requires forall k :: 0 <= k < |pre| ==> IsPySpace(pre[k])
    requires forall k :: 0 <= k < |post| ==> IsPySpace(post[k])
    requires name != [] && !HasPySpace(name)
    requires description != [] && !IsPySpace(description[0]) && !IsPySpace(description[|description| - 1])
    ensures ParseOptionLine(pre + name + " - " + description + post) == Some((name, description))
  {
    var x := name + " - " + description;
    assert x[0] == name[0] && x[|x| - 1] == description[|description| - 1];
    assert pre + name + " - " + description + post == pre + x + post;
    StripPadded(pre, x, post, IsPySpace);
    SeparatorAfterName(name, description);
    SplitHalves(name, description);
  }

  /** The halves either side of the separator, once stripped, are the name and the description. */
  lemma SplitHalves(name: string, description: string)
    requires name != [] && !HasPySpace(name)
    requires description != [] && !IsPySpace(description[0]) && !IsPySpace(description[|description| - 1])
    ensures var x := name + " - " + description;
      Strip(x[..|name|], IsPySpace) == name && Strip(x[|name| + 3..], IsPySpace) == description
  {
    var x := name + " - " + description;
    assert x[..|name|] == name;
    assert x[|name| + 3..] == description;
    StripUnchanged(name, IsPySpace);
    StripUnchanged(description, IsPySpace);
  }

  /** In `<name> - <description>` with no space in the name, the first
      separator is the one right after the name. */
  lemma SeparatorAfterName(name: string, description: string)
    requires !HasPySpace(name)
    ensures IndexOf(name + " - " + description, " - ") == Some(|name|)
  {
    var x := name + " - " + description;
    assert x[|name|..|name| + 3] == " - ";
    assert OccursAt(x, " - ", |name|);
    forall j | 0 <= j < |name| ensures !OccursAt(x, " - ", j) {
      assert x[j] == name[j] && !IsPySpace(x[j]);
      if j + 3 <= |x| {
        assert x[j..j + 3][0] == x[j];
      }
    }
    var r := IndexOf(x, " - ");
    assert r.Some?;
    assert r.value <= |name|;
  }

  /** The assignments `scrape_resource_options` performs, one per list item. */
  function OptionSteps(items: seq<string>): seq<Option<(string, string)>>
  {
    if items == [] then [] else OptionSteps(items[..|items| - 1]) + [ParseOptionLine(items[|items| - 1])]
  }

  /** Step `k` is the parse of item `k`. */
  lemma {:induction false} OptionStepsAt(items: seq<string>)
    ensures |OptionSteps(items)| == |items|
    ensures forall k :: 0 <= k < |items| ==> OptionSteps(items)[k] == ParseOptionLine(items[k])
  {
    if items != [] {
      var init := items[..|items| - 1];
      OptionStepsAt(init);
      assert forall k :: 0 <= k < |init| ==> init[k] == items[k];
    }
  }

  /** The option dictionary filled from the Argument Reference list items. */
  method ParseOptionLines(items: seq<string>) returns (options: map<string, string>)
    ensures options == Assign(OptionSteps(items))
  {
    options := map[];
    for k := 0 to |items|
      invariant options == Assign(OptionSteps(items[..k]))
    {
      var parsed := ParseOptionLine(items[k]);
      if parsed.Some? {
        var (name, description) := parsed.value;
        options := options[name := description];
      }
      assert items[..k + 1][..k] == items[..k];
      AssignSnoc(OptionSteps(items[..k]), parsed);
    }
    assert items[..|items|] == items;
  }

  /** An option is recorded exactly when some line names it, and it keeps the
      description of the last such line. */
  lemma ParsedOptionsSpec(items: seq<string>, name: string, k: nat)
    requires k < |items| && ParseOptionLine(items[k]).Some? && ParseOptionLine(items[k]).value.0 == name
    requires forall j :: k < j < |items| && ParseOptionLine(items[j]).Some? ==> ParseOptionLine(items[j]).value.0 != name
    ensures name in Assign(OptionSteps(items))
    ensures Assign(OptionSteps(items))[name] == ParseOptionLine(items[k]).value.1
  {
    OptionStepsAt(items);
    AssignLastWins(OptionSteps(items), k);
  }

  lemma ParsedOptionsKeys(items: seq<string>, name: string)
    ensures name in Assign(OptionSteps(items)) <==>
      exists k :: 0 <= k < |items| && ParseOptionLine(items[k]).Some? && ParseOptionLine(items[k]).value.0 == name
  {
    OptionStepsAt(items);
    AssignKeys(OptionSteps(items), name);
  }

  /** A navigation link: its text and its `href`. */
  datatype Link = Link(text: string, href: string)

  /** The record kept for a resource; the options scraped from its page are not part of this model. */
  datatype ResourceDoc = ResourceDoc(name: string, url: string)

  /** `resource_name.startswith(f"{provider}_")` on the stripped link text. */
  predicate IsProviderResource(provider: string, name: string)
  {
    StartsWith(name, provider + "_")
  }

  /** The assignment `scrape_provider_docs` performs for one link, where
      `baseUrl` is the provider's entry in `ProviderUrls`. */
  function ResourceStep(provider: string, baseUrl: string, link: Link): Option<(string, ResourceDoc)>
  {
    var name := Strip(link.text, IsPySpace);
    if IsProviderResource(provider, name) then Some((name, ResourceDoc(name, baseUrl + link.href)))
    else None
  }

  function ResourceSteps(provider: string, baseUrl: string, links: seq<Link>): (steps: seq<Option<(string, ResourceDoc)>>)
    ensures |steps| == |links|
  {
    if links == [] then []
    else ResourceSteps(provider, baseUrl, links[..|links| - 1]) + [ResourceStep(provider, baseUrl, links[|links| - 1])]
  }

  lemma {:induction false} ResourceStepsAt(provider: string, baseUrl: string, links: seq<Link>, k: nat)
    requires k < |links|
    ensures ResourceSteps(provider, baseUrl, links)[k] == ResourceStep(provider, baseUrl, links[k])
    decreases |links|
  {
    var init := links[..|links| - 1];
    if k < |init| {
      ResourceStepsAt(provider, baseUrl, init, k);
    }
  }

  /** The resource dictionary of one provider, filled from its navigation links. */
  method CollectResources(provider: string, links: seq<Link>) returns (resources: map<string, ResourceDoc>)
    requires provider in ProviderUrls
    ensures resources == Assign(ResourceSteps(provider, ProviderUrls[provider], links))
  {
    var baseUrl := ProviderUrls[provider];
    resources := map[];
    for k := 0 to |links|
      invariant resources == Assign(ResourceSteps(provider, baseUrl, links[..k]))
    {
      var name := Strip(links[k].text, IsPySpace);
      if StartsWith(name, provider + "_") {
        resources := resources[name := ResourceDoc(name, baseUrl + links[k].href)];
      }
      assert links[..k + 1][..k] == links[..k];
      AssignSnoc(ResourceSteps(provider, baseUrl, links[..k]), ResourceStep(provider, baseUrl, links[k]));
    }
    assert links[..|links|] == links;
  }

  /** Every kept resource carries the provider's prefix, its own name, and the
      documentation URL joined from the base URL and the `href` of the last
      link that carries that name. */
  lemma CollectedResourcesSpec(provider: string, baseUrl: string, links: seq<Link>, name: string)
    requires name in Assign(ResourceSteps(provider, baseUrl, links))
    ensures StartsWith(name, provider + "_")
    ensures Assign(ResourceSteps(provider, baseUrl, links))[name].name == name
    ensures exists k :: (0 <= k < |links| && Strip(links[k].text, IsPySpace) == name
      && Assign(ResourceSteps(provider, baseUrl, links))[name].url == baseUrl + links[k].href
      && forall j :: k < j < |links| ==> Strip(links[j].text, IsPySpace) != name)
  {
    var steps := ResourceSteps(provider, baseUrl, links);
    AssignKeys(steps, name);
    var k :| 0 <= k < |steps| && steps[k].Some? && steps[k].value.0 == name;
    ResourceStepsAt(provider, baseUrl, links, k);
    var last := LastAssignment(steps, name, k);
    AssignLastWins(steps, last);
    ResourceStepsAt(provider, baseUrl, links, last);
    forall j | last < j < |links| ensures Strip(links[j].text, IsPySpace) != name {
      ResourceStepsAt(provider, baseUrl, links, j);
    }
  }

  /** Conversely, every link whose stripped text starts with `<provider>_`
      is kept under that name. */
  lemma CollectedResourcesComplete(provider: string, baseUrl: string, links: seq<Link>, k: nat)
    requires k < |links| && IsProviderResource(provider, Strip(links[k].text, IsPySpace))
    ensures Strip(links[k].text, IsPySpace) in Assign(ResourceSteps(provider, baseUrl, links))
  {
    var steps := ResourceSteps(provider, baseUrl, links);
    ResourceStepsAt(provider, baseUrl, links, k);
    AssignKeys(steps, Strip(links[k].text, IsPySpace));
  }
}
