/**
 * Which sign-in buttons and which messages the login pages show
 * (`AuthLogin` and `AuthLoginUnsupportedProvider` in
 * pages/authLogin/authLogin.html.js), with the markup stripped: a page is
 * the list of buttons and messages it shows, in order.
 */
module LoginPages {
  import opened Options

  /** The server configuration flags the pages read. */
  datatype Config = Config(hasShib: bool, hideShibLogin: bool, hasOauth: bool, hasAzure: bool)

  /** A provider the institution supports: its name ("SAML", "Shibboleth", "Google", "Azure", "LTI", ...) and `is_default`. */
  datatype Provider = Provider(name: string, isDefault: bool)

  /** An institution sign-on entry of the plain login page. */
  datatype InstitutionProvider = InstitutionProvider(name: string, url: string)

  datatype Button =
    | DevModeBypass
    | SamlButton(institutionId: string)
    | ShibButton
    | GoogleButton
    | MicrosoftButton

  /** The three sentences the unsupported-provider alert can add. */
  datatype Message = UseSupportedProvider | StartFromLms | ContactInstitution

  /** Position of a button in the order the pages list buttons. */
  function Rank(b: Button): nat {
    match b
    case DevModeBypass => 0
    case SamlButton(_) => 1
    case ShibButton => 2
    case GoogleButton => 3
    case MicrosoftButton => 4
  }

  predicate InOrder(bs: seq<Button>) {
    forall i, j :: 0 <= i < j < |bs| ==> Rank(bs[i]) < Rank(bs[j])
  }

  /** A template slot `${c ? x : ''}`. */
  function When<T>(c: bool, x: T): seq<T> {
    if c then [x] else []
  }

  /** Four template slots of buttons of increasing rank show exactly the buttons whose condition holds, in rank order. */
  lemma Slots(a: Button, b: Button, c: Button, d: Button, ca: bool, cb: bool, cc: bool, cd: bool)
    requires Rank(a) < Rank(b) < Rank(c) < Rank(d)
    ensures var bs := When(ca, a) + When(cb, b) + When(cc, c) + When(cd, d);
      InOrder(bs) &&
      (a in bs <==> ca) && (b in bs <==> cb) && (c in bs <==> cc) && (d in bs <==> cd) &&
      forall x :: x in bs ==> x == a || x == b || x == c || x == d
  {
    var s1 := When(ca, a);
    var s2 := s1 + When(cb, b);
    var s3 := s2 + When(cc, c);
    AppendSlot(s1, b, cb);
    AppendSlot(s2, c, cc);
    AppendSlot(s3, d, cd);
  }

  /** A slot for a button of higher rank than all before it keeps the list in order. */
  lemma AppendSlot(bs: seq<Button>, x: Button, c: bool)
    requires InOrder(bs)
    requires forall y :: y in bs ==> Rank(y) < Rank(x)
    ensures InOrder(bs + When(c, x))
    ensures forall y :: y in bs + When(c, x) <==> y in bs || (c && y == x)
  {
  }

  /** JavaScript truthiness of the optional `service` string. */
  predicate Truthy(service: Option<string>) {
    service.Some? && service.value != ""
  }

  const SignIn := "Sign in"
  const ContinueTo := " to continue to "

  /** The subheader names the service only when `service` is truthy. */
  function Subheader(service: Option<string>): (s: string)
    ensures |s| >= |SignIn| && s[..|SignIn|] == SignIn
    ensures Truthy(service) <==> |s| > |SignIn|
    ensures Truthy(service) ==> s[|SignIn|..] == ContinueTo + service.value
  {
    SignIn + (if Truthy(service) then ContinueTo + service.value else "")
  }

  predicate ShibLoginShown(cfg: Config) {
    cfg.hasShib && !cfg.hideShibLogin
  }

  datatype LoginPage = LoginPage(
    subheader: string,
    methods: seq<Button>,
    institutionLinks: Option<seq<InstitutionProvider>>)

  /**
   * `AuthLogin`: the by-pass and the configured sign-in buttons, in that
   * order, then an institution sign-on section, present when the institution
   * has providers, with one link per provider in list order.
   */
  function AuthLogin(cfg: Config, devMode: bool, service: Option<string>, providers: seq<InstitutionProvider>)
    : (page: LoginPage)
    ensures DevModeBypass in page.methods <==> devMode
    ensures ShibButton in page.methods <==> ShibLoginShown(cfg)
    ensures GoogleButton in page.methods <==> cfg.hasOauth
    ensures MicrosoftButton in page.methods <==> cfg.hasAzure
    ensures forall b :: b in page.methods ==> !b.SamlButton?
    ensures InOrder(page.methods)
    ensures page.institutionLinks.None? <==> |providers| == 0
    ensures page.institutionLinks.Some? ==> page.institutionLinks.value == providers
    ensures page.subheader == Subheader(service)
  {
    Slots(DevModeBypass, ShibButton, GoogleButton, MicrosoftButton,
          devMode, ShibLoginShown(cfg), cfg.hasOauth, cfg.hasAzure);
    LoginPage(
      Subheader(service),
      When(devMode, DevModeBypass) + When(ShibLoginShown(cfg), ShibButton)
        + When(cfg.hasOauth, GoogleButton) + When(cfg.hasAzure, MicrosoftButton),
      if |providers| > 0 then Some(providers) else None)
  }

  predicate Supports(ps: seq<Provider>, name: string) {
    exists i :: 0 <= i < |ps| && ps[i].name == name
  }

  predicate SupportsNonLti(ps: seq<Provider>) {
    exists i :: 0 <= i < |ps| && ps[i].name != "LTI"
  }

  /** `supportedProviders.find((p) => p.is_default === true)`: the first default provider. */
  function FindDefault(ps: seq<Provider>): (d: Option<Provider>)
    ensures d.None? <==> forall i :: 0 <= i < |ps| ==> !ps[i].isDefault
    ensures d.Some? ==> d.value.isDefault && d.value in ps
    ensures d.Some? ==> forall i :: 0 <= i < |ps| && ps[i].isDefault ==> ps[i] == d.value || exists j :: 0 <= j < i && ps[j] == d.value
  {
    if |ps| == 0 then None
    else if ps[0].isDefault then Some(ps[0])
    else
      var d := FindDefault(ps[1..]);
      assert forall i :: 1 <= i < |ps| ==> ps[i] == ps[1..][i - 1];
      d
  }

  /** `defaultProvider?.name !== name` */
  predicate DefaultIsNot(d: Option<Provider>, name: string) {
    d.None? || d.value.name != name
  }

  /** The switch on the default provider's name. */
  function DefaultButton(d: Option<Provider>, institutionId: string): Option<Button> {
    if d.None? then None
    else if d.value.name == "SAML" then Some(SamlButton(institutionId))
    else if d.value.name == "Shibboleth" then Some(ShibButton)
    else if d.value.name == "Google" then Some(GoogleButton)
    else if d.value.name == "Azure" then Some(MicrosoftButton)
    else None
  }

  predicate HasButtonName(name: string) {
    name == "SAML" || name == "Shibboleth" || name == "Google" || name == "Azure"
  }

  /** The three message slots of the alert: exactly one of them is filled. */
  lemma OneMessage(ps: seq<Provider>)
    ensures var m := When(SupportsNonLti(ps), UseSupportedProvider)
                     + When(!SupportsNonLti(ps) && Supports(ps, "LTI"), StartFromLms)
                     + When(|ps| == 0, ContactInstitution);
      (m == [UseSupportedProvider] <==> SupportsNonLti(ps)) &&
      (m == [StartFromLms] <==> |ps| > 0 && forall i :: 0 <= i < |ps| ==> ps[i].name == "LTI") &&
      (m == [ContactInstitution] <==> |ps| == 0) &&
      |m| == 1
  {
    var m := When(SupportsNonLti(ps), UseSupportedProvider)
             + When(!SupportsNonLti(ps) && Supports(ps, "LTI"), StartFromLms)
             + When(|ps| == 0, ContactInstitution);
    if SupportsNonLti(ps) {
      assert |ps| > 0;
      assert m == [UseSupportedProvider];
    } else if |ps| > 0 {
      assert ps[0].name == "LTI";
      assert m == [StartFromLms];
    } else {
      assert m == [ContactInstitution];
    }
  }

  /** The alert's sentences: exactly one, chosen by which providers the institution supports. */
  function AlertMessages(ps: seq<Provider>): (m: seq<Message>)
    ensures |m| == 1
    ensures m == [UseSupportedProvider] <==> SupportsNonLti(ps)
    ensures m == [StartFromLms] <==> |ps| > 0 && forall i :: 0 <= i < |ps| ==> ps[i].name == "LTI"
    ensures m == [ContactInstitution] <==> |ps| == 0
  {
    OneMessage(ps);
    When(SupportsNonLti(ps), UseSupportedProvider)
      + When(!SupportsNonLti(ps) && Supports(ps, "LTI"), StartFromLms)
      + When(|ps| == 0, ContactInstitution)
  }

  /**
   * The buttons below the preferred one: a supported provider that is not
   * the default, and, except for SAML, whose login is enabled in the
   * configuration; in the order SAML, Shibboleth, Google, Azure.
   */
  function OtherButtons(cfg: Config, ps: seq<Provider>, institutionId: string): (bs: seq<Button>)
    ensures SamlButton(institutionId) in bs <==> Supports(ps, "SAML") && DefaultIsNot(FindDefault(ps), "SAML")
    ensures ShibButton in bs <==>
              ShibLoginShown(cfg) && Supports(ps, "Shibboleth") && DefaultIsNot(FindDefault(ps), "Shibboleth")
    ensures GoogleButton in bs <==> cfg.hasOauth && Supports(ps, "Google") && DefaultIsNot(FindDefault(ps), "Google")
    ensures MicrosoftButton in bs <==> cfg.hasAzure && Supports(ps, "Azure") && DefaultIsNot(FindDefault(ps), "Azure")
    ensures forall b :: b in bs ==> b != DevModeBypass && (b.SamlButton? ==> b.institutionId == institutionId)
    ensures InOrder(bs)
  {
    var defaultProvider := FindDefault(ps);
    var showSaml := Supports(ps, "SAML") && DefaultIsNot(defaultProvider, "SAML");
    var showShib := ShibLoginShown(cfg) && Supports(ps, "Shibboleth") && DefaultIsNot(defaultProvider, "Shibboleth");
    var showGoogle := cfg.hasOauth && Supports(ps, "Google") && DefaultIsNot(defaultProvider, "Google");
    var showAzure := cfg.hasAzure && Supports(ps, "Azure") && DefaultIsNot(defaultProvider, "Azure");
    Slots(SamlButton(institutionId), ShibButton, GoogleButton, MicrosoftButton, showSaml, showShib, showGoogle, showAzure);
    When(showSaml, SamlButton(institutionId)) + When(showShib, ShibButton)
      + When(showGoogle, GoogleButton) + When(showAzure, MicrosoftButton)
  }

  /** The default's button is one of the four kinds, and each `showX` excludes the default's own kind. */
  lemma PreferredNotRepeated(cfg: Config, ps: seq<Provider>, institutionId: string)
    ensures var b := DefaultButton(FindDefault(ps), institutionId);
      (b.Some? <==> FindDefault(ps).Some? && HasButtonName(FindDefault(ps).value.name)) &&
      (b.Some? ==> b.value !in OtherButtons(cfg, ps, institutionId))
  {
    var d := FindDefault(ps);
    var others := OtherButtons(cfg, ps, institutionId);
    if d.Some? {
      var name := d.value.name;
      if name == "SAML" {
        assert SamlButton(institutionId) !in others;
      } else if name == "Shibboleth" {
        assert ShibButton !in others;
      } else if name == "Google" {
        assert GoogleButton !in others;
      } else if name == "Azure" {
        assert MicrosoftButton !in others;
      }
    }
  }

  datatype UnsupportedProviderPage = UnsupportedProviderPage(
    subheader: string,
    messages: seq<Message>,
    preferred: Option<Button>,
    otherProvidersLabel: bool,
    others: seq<Button>)

  /**
   * `AuthLoginUnsupportedProvider`: the alert, then the preferred provider's
   * button with the "Other providers" label below it, then the buttons of
   * the other supported providers. The preferred button depends on the
   * first default provider only, not on the configuration, and is never
   * repeated among the others.
   */
  function AuthLoginUnsupportedProvider(cfg: Config, ps: seq<Provider>, institutionId: string, service: Option<string>)
    : (page: UnsupportedProviderPage)
    ensures page.messages == AlertMessages(ps)
    ensures page.preferred.Some? <==> FindDefault(ps).Some? && HasButtonName(FindDefault(ps).value.name)
    ensures page.preferred.Some? ==> page.preferred == DefaultButton(FindDefault(ps), institutionId)
    ensures page.otherProvidersLabel <==>
              page.preferred.Some? && exists i :: 0 <= i < |ps| && ps[i].name != "LTI" && !ps[i].isDefault
    ensures page.others == OtherButtons(cfg, ps, institutionId)
    ensures page.preferred.Some? ==> page.preferred.value !in page.others
    ensures page.subheader == Subheader(service)
  {
    var defaultProvider := FindDefault(ps);
    var hasNonDefaultProviders := exists i :: 0 <= i < |ps| && ps[i].name != "LTI" && !ps[i].isDefault;
    var defaultProviderButton := DefaultButton(defaultProvider, institutionId);
    PreferredNotRepeated(cfg, ps, institutionId);
    UnsupportedProviderPage(
      Subheader(service),
      AlertMessages(ps),
      defaultProviderButton,
      defaultProviderButton.Some? && hasNonDefaultProviders,
      OtherButtons(cfg, ps, institutionId))
  }

  /** The preferred button follows the default provider even when that provider's login is switched off. */
  lemma PreferredIgnoresConfig(cfg1: Config, cfg2: Config, ps: seq<Provider>, institutionId: string, service: Option<string>)
    ensures AuthLoginUnsupportedProvider(cfg1, ps, institutionId, service).preferred
         == AuthLoginUnsupportedProvider(cfg2, ps, institutionId, service).preferred
  {
  }

  /** Only the first default provider counts: an LTI default ahead of a SAML default leaves no preferred button. */
  lemma FirstDefaultOnly(cfg: Config, institutionId: string)
    ensures var ps := [Provider("LTI", true), Provider("SAML", true)];
      AuthLoginUnsupportedProvider(cfg, ps, institutionId, None).preferred == None &&
      AuthLoginUnsupportedProvider(cfg, ps, institutionId, None).others == [SamlButton(institutionId)]
  {
    var ps := [Provider("LTI", true), Provider("SAML", true)];
    assert FindDefault(ps) == Some(ps[0]);
    assert ps[1].name == "SAML";
  }

  /**
   * The "Other providers" label asks only for some non-LTI, non-default
   * provider, not for a button below it: with Google logins switched off, a
   * SAML default and a Google alternative give the label over an empty list.
   */
  lemma OtherLabelOverNoButtons(institutionId: string)
    ensures var page := AuthLoginUnsupportedProvider(Config(false, false, false, false),
                                                     [Provider("SAML", true), Provider("Google", false)],
                                                     institutionId, None);
      page.preferred == Some(SamlButton(institutionId)) && page.otherProvidersLabel && page.others == []
  {
    var ps := [Provider("SAML", true), Provider("Google", false)];
    assert FindDefault(ps) == Some(ps[0]);
    assert ps[1].name != "LTI" && !ps[1].isDefault;
    assert !Supports(ps, "Shibboleth") && !Supports(ps, "Azure");
  }
}
