/**
 * The package manager used to scaffold a new Harper application, and the command line
 * that scaffolds it.
 */
module PackageManager {
  import opened Wrappers
  import opened Strings

  datatype Pm = Yarn | Pnpm | Bun | Deno | Npm

  /** The command name of each manager. */
  function Name(pm: Pm): string {
    match pm
    case Yarn => "yarn"
    case Pnpm => "pnpm"
    case Bun => "bun"
    case Deno => "deno"
    case Npm => "npm"
  }

  /** `PM_DISPLAY`. */
  function Display(pm: Pm): string {
    match pm
    case Yarn => "Yarn"
    case Pnpm => "PNPM"
    case Bun => "Bun"
    case Deno => "Deno"
    case Npm => "NPM"
  }

  /** The managers preferred over npm, most preferred first. */
  const Preferred: seq<Pm> := [Yarn, Pnpm, Bun, Deno]

  /** The first of `pms` from position `i` that is available. */
  function FirstAvailable(pms: seq<Pm>, available: Pm -> bool, i: nat): (r: Option<nat>)
    requires i <= |pms|
    ensures r.Some? ==> i <= r.value < |pms| && available(pms[r.value])
    ensures r.Some? ==> forall j :: i <= j < r.value ==> !available(pms[j])
    ensures r.None? ==> forall j :: i <= j < |pms| ==> !available(pms[j])
    decreases |pms| - i
  {
    if i == |pms| then None
    else if available(pms[i]) then Some(i)
    else FirstAvailable(pms, available, i + 1)
  }

  /**
   * `pickPreferredPackageManager`: the first available of yarn, pnpm, bun and deno, else
   * npm. `available` is `isPackageManagerAvailable`, which probes the system.
   */
  function PickPreferredPackageManager(available: Pm -> bool): (r: Pm)
    ensures r == Npm <==> forall j :: 0 <= j < |Preferred| ==> !available(Preferred[j])
    ensures r != Npm ==> exists k :: (0 <= k < |Preferred| && r == Preferred[k] && available(r)
      && forall j :: 0 <= j < k ==> !available(Preferred[j]))
  {
    match FirstAvailable(Preferred, available, 0)
    case None => Npm
    case Some(k) => Preferred[k]
  }

  /** The scaffolding command and the label shown while it runs. */
  datatype CreateCommand = CreateCommand(cmd: string, caption: string)

  const Redirect := " 2>&1"

  function Quoted(s: string): string {
    "\"" + s + "\""
  }

  /** The label: deno's and npm's own invocations, and `<name> create harper` for the rest. */
  function Caption(pm: Pm): (r: string)
    ensures StartsWith(r, Name(pm) + " ")
  {
    match pm
    case Deno => "deno init --npm harper"
    case Npm => "npm create harper@latest"
    case _ => Name(pm) + " create harper"
  }

  /** What comes between the label and the quoted application name. */
  function BeforeName(pm: Pm): string {
    if pm == Npm then " --yes " else " "
  }

  /** What follows the quoted application name, before the template. */
  function AfterName(pm: Pm): string {
    match pm
    case Deno => ""
    case Npm => " -- --no-interactive"
    case _ => " --no-interactive"
  }

  /** The template flag, which deno does not take. */
  function TemplateFlag(pm: Pm, template: string): string {
    if pm == Deno then "" else " --template " + template
  }

  /** Everything after the quoted application name, ending with the redirect. */
  function Tail(pm: Pm, template: string): (r: string)
    ensures EndsWith(r, Redirect)
  {
    EndsWithAppend(AfterName(pm) + TemplateFlag(pm, template), Redirect);
    AfterName(pm) + TemplateFlag(pm, template) + Redirect
  }

  /** `buildCreateCommand`: deno's own form, npm's form with `--yes` and `--`, and one form for the rest. */
  function BuildCreateCommand(pm: Pm, appName: string, template: string): (r: CreateCommand)
    ensures StartsWith(r.cmd, r.caption) && EndsWith(r.cmd, Redirect)
    ensures StartsWith(r.caption, Name(pm) + " ")
  {
    var caption := Caption(pm);
    var rest := BeforeName(pm) + Quoted(appName) + Tail(pm, template);
    EndsWithExtend(BeforeName(pm) + Quoted(appName), Tail(pm, template), Redirect);
    EndsWithExtend(caption, rest, Redirect);
    CreateCommand(caption + rest, caption)
  }

  // ---- properties ----

  /** npm itself is never probed: two probes that agree on the preferred four pick the same. */
  lemma NpmNeverProbed(a: Pm -> bool, b: Pm -> bool)
    requires forall pm :: pm != Npm ==> a(pm) == b(pm)
    ensures PickPreferredPackageManager(a) == PickPreferredPackageManager(b)
  {
    assert forall j :: 0 <= j < |Preferred| ==> Preferred[j] != Npm;
  }

  /** Every manager has a display name, and no two share one. */
  lemma DisplayNamesDistinct(p: Pm, q: Pm)
    requires Display(p) == Display(q)
    ensures p == q
  {
    assert Display(p)[0] == Display(q)[0];
    assert |Display(p)| == |Display(q)|;
  }

  /** The application name appears double-quoted in every command. */
  lemma AppNameQuoted(pm: Pm, appName: string, template: string)
    ensures Contains(BuildCreateCommand(pm, appName, template).cmd, Quoted(appName))
  {
    var rest := BeforeName(pm) + Quoted(appName) + Tail(pm, template);
    ContainsMiddle(BeforeName(pm), Quoted(appName), Tail(pm, template));
    ContainsAppend(Caption(pm), rest, Quoted(appName));
  }

  /** deno ignores the template; every other manager ends with it. */
  lemma TemplateUse(pm: Pm, appName: string, t1: string, t2: string)
    ensures pm == Deno ==> BuildCreateCommand(pm, appName, t1) == BuildCreateCommand(pm, appName, t2)
    ensures pm != Deno ==> EndsWith(BuildCreateCommand(pm, appName, t1).cmd, " --template " + t1 + Redirect)
  {
    if pm != Deno {
      var suffix := TemplateFlag(pm, t1) + Redirect;
      EndsWithLastTwo(AfterName(pm), TemplateFlag(pm, t1), Redirect);
      EndsWithExtend(BeforeName(pm) + Quoted(appName), Tail(pm, t1), suffix);
      EndsWithExtend(Caption(pm), BeforeName(pm) + Quoted(appName) + Tail(pm, t1), suffix);
    }
  }
}
