# PrairieLearn: login provider selection and the rbmOmega question generator

This project models, in Dafny, the two pieces of logic of this part of
PrairieLearn that have behaviour worth stating.

- **The rigid-body question `rbmOmega`**
  (`templateCourses/dynamics/questions/rbmOmega/server.py`).
  - `vectorInBasis` / `cartesianVector` write a 3-vector as a LaTeX sum of
    basis symbols: zero components are skipped, a coefficient of 1 or -1 is
    elided before a non-empty basis name, every later term gets a `+` unless
    it starts with `-`, and a vector without terms prints as `0`. Python's
    `str` of an int is modelled digit by digit (module `Decimal`), with its
    inverse, so that the comparisons with "0", "1" and "-1" can be reasoned
    about.
  - `randIntNonZero` and `randIntNonZeroArray` are rejection loops. The
    random source is an oracle: the values the random calls return are a
    parameter, each constrained to the range of its call. A loop ends in one
    of three outcomes. It accepts a value. It raises `ValueError`, as Python
    does for an empty range, a zero step or a negative size. Or it has used
    up its values and is still looping (`Pending`).
  - `generate` draws omega (about z), rPQ and vP; it sets vQ = vP + omega x rPQ,
    shifts both velocities by the same rounded half of their difference, and
    stores texts, vectors and the answer in the question's `data`. That
    dictionary is a class whose maps the method updates.
- **The login pages** (`pages/authLogin/authLogin.html.js`). `AuthLogin` and
  `AuthLoginUnsupportedProvider` become pure functions. They take the
  configuration flags, `devMode` and the provider lists, and return an
  abstract page: the buttons as tags in display order, the alert's message
  tags, the optional preferred button and whether the "Other providers"
  label appears.

Files: `options.dfy` (Option), `decimal.dfy` (integer text),
`vector_text.dfy`, `random_draws.dfy`, `rbm_omega.dfy`, `login_pages.dfy`.

The model also proves one observation about the login page
(`LoginPages.OtherLabelOverNoButtons`). The "Other providers" label only needs
some non-LTI provider that is not the default. It does not need a button
below it. So with Google logins switched off, a SAML default and a Google
alternative show the label over an empty list.

## Model

| member | source | states |
|---|---|---|
| `Decimal.NatRoundTrip` | templateCourses/dynamics/questions/rbmOmega/server.py:60 | the decimal text of a natural number is all digits and reads back to the number |
| `Decimal.IntRoundTrip` | templateCourses/dynamics/questions/rbmOmega/server.py:60 | `str(n)` of any int reads back to n |
| `Decimal.IntToStringInjective` | templateCourses/dynamics/questions/rbmOmega/server.py:60-66 | two ints have the same text exactly when they are equal |
| `Decimal.SpecialTexts` | templateCourses/dynamics/questions/rbmOmega/server.py:61-66 | the texts "0", "1" and "-1" belong to exactly 0, 1 and -1 |
| `Decimal.IntToStringLead` | templateCourses/dynamics/questions/rbmOmega/server.py:68 | an int's text starts with '-' exactly when it is negative, and otherwise with a digit |
| `VectorText.VectorInBasis` | templateCourses/dynamics/questions/rbmOmega/server.py:45-73 | the loop that normalises floats, builds and signs each term and joins them yields exactly `Render`, the signed terms of the non-zero components or "0" |
| `VectorText.TextZero` | templateCourses/dynamics/questions/rbmOmega/server.py:57-62 | a component's text is "0" exactly when its value is zero, for ints and floats |
| `VectorText.TermCount` | templateCourses/dynamics/questions/rbmOmega/server.py:56-62 | zero components give no term: the number of terms equals the number of non-zero components |
| `VectorText.AllZeroRendersZero` | templateCourses/dynamics/questions/rbmOmega/server.py:71-73 | a vector whose components are all zero renders as exactly "0" |
| `VectorText.IntCoefficientTerm` | templateCourses/dynamics/questions/rbmOmega/server.py:60-67 | before a non-empty basis name, 1 gives the bare name, -1 gives "-" and the name, any other int its decimal text and the name; before an empty name the full text is kept |
| `VectorText.IntegralFloatAsInt` | templateCourses/dynamics/questions/rbmOmega/server.py:57-59 | an integral float such as 3.0 prints, and forms its term, exactly as the int 3 |
| `VectorText.NoLeadingPlus` | templateCourses/dynamics/questions/rbmOmega/server.py:68-70 | the first term gets no '+', so when no basis name starts with '+' the text never starts with '+' |
| `VectorText.LaterTermsSigned` | templateCourses/dynamics/questions/rbmOmega/server.py:68-70 | every term after the first begins with '+' or '-' |
| `VectorText.UnsignedSigned` | templateCourses/dynamics/questions/rbmOmega/server.py:68-70 | removing the added '+' signs gives back the unsigned terms, so the joining adds nothing else |
| `VectorText.CartesianVector` | templateCourses/dynamics/questions/rbmOmega/server.py:76-77 | the text in the i, j, k basis is "0" exactly for the zero vector and never starts with '+' |
| `VectorText.CartesianZeroIff` | templateCourses/dynamics/questions/rbmOmega/server.py:71-77 | in the Cartesian basis the text is "0" if and only if every component is zero |
| `VectorText.CartesianExample` | templateCourses/dynamics/questions/rbmOmega/server.py:45-77 | (2, 0, -1) renders as `2\hat{\imath}-\hat{k}` |
| `RandomDraws.FirstNonZero` | templateCourses/dynamics/questions/rbmOmega/server.py:38-42 | the value the loop accepts is a non-zero draw, and there is none exactly when every draw is zero |
| `RandomDraws.FirstNonZeroBatch` | templateCourses/dynamics/questions/rbmOmega/server.py:89-105 | the vector the loop accepts has three components and is not all zero |
| `RandomDraws.RandIntNonZero` | templateCourses/dynamics/questions/rbmOmega/server.py:32-42 | raises `ValueError` when a > b; otherwise the result is the first non-zero draw, so it is non-zero and in [a, b], and all earlier draws were zero; for a = b = 0 no draw is ever accepted |
| `RandomDraws.RandIntNonZeroArray` | templateCourses/dynamics/questions/rbmOmega/server.py:80-105 | raises `ValueError` for negative n, and for n = 2 or 3 over an empty range or with a zero step; for n = 2 the result is the first batch of two randrange(a, b, step) draws and a zero third component that is not all zero, for n = 3 the first such batch of three; every earlier batch was all zero; any other n loops forever |
| `RbmOmega.HalfRounded` | templateCourses/dynamics/questions/rbmOmega/server.py:16 | `np.rint(k / 2)` is within one half of k/2 and is even when k/2 is a tie |
| `RbmOmega.HalfRoundedUnique` | templateCourses/dynamics/questions/rbmOmega/server.py:16 | only one integer meets the round-half-to-even contract |
| `RbmOmega.Generate` | templateCourses/dynamics/questions/rbmOmega/server.py:7-29 | the question is generated exactly when all three loops accept a value; it is then built from those accepted values (omega, rPQ, vP) as `StoredParams` gives it, the answer is omega, and the result is posed; otherwise `data` is unchanged |
| `RbmOmega.Pose` | templateCourses/dynamics/questions/rbmOmega/server.py:12-27 | stores rPQ, vP - h and vP + omega x rPQ - h, where h is the rounded half of omega x rPQ, each as a vector and as LaTeX text, and omega as the answer; the result is posed |
| `RbmOmega.StoredQuestionIsPosed` | templateCourses/dynamics/questions/rbmOmega/server.py:12-27 | the stored question of a valid draw is posed: both shifted velocities lie in the xy-plane and still differ by omega k x rPQ |
| `RbmOmega.StoreKeepsOtherKeys` | templateCourses/dynamics/questions/rbmOmega/server.py:21-26 | storing adds or replaces exactly the six generated keys and keeps every other parameter |
| `RbmOmega.ShiftKeepsRelativeVelocity` | templateCourses/dynamics/questions/rbmOmega/server.py:14-19 | subtracting the half offset from both velocities keeps vQ - vP and the z-components, and leaves them within one of the drawn vP on either side |
| `RbmOmega.CrossPerpendicular` | templateCourses/dynamics/questions/rbmOmega/server.py:12 | omega x r is perpendicular to omega and to r |
| `RbmOmega.OmegaRecoverable` | templateCourses/dynamics/questions/rbmOmega/server.py:8-12 | for omega along z and non-zero rPQ in the plane, vQ - vP has no z-component and determines omega uniquely, so the stored answer is the only correct one |
| `LoginPages.Subheader` | pages/authLogin/authLogin.html.js:107 | the subheader is "Sign in" followed by " to continue to" and the service exactly when `service` is truthy |
| `LoginPages.AuthLogin` | pages/authLogin/authLogin.html.js:155-188 | by-pass iff devMode, Shibboleth iff hasShib and not hideShibLogin, Google iff hasOauth, Microsoft iff hasAzure, in that order; the institution section appears iff there are providers, one link per provider in list order |
| `LoginPages.FindDefault` | pages/authLogin/authLogin.html.js:199 | the default provider is a provider marked default with no default before it; there is none exactly when no provider is marked default |
| `LoginPages.AlertMessages` | pages/authLogin/authLogin.html.js:191-192 | exactly one message: use a supported provider iff some provider is not LTI, start from the LMS iff all of a non-empty list are LTI, contact the institution iff the list is empty |
| `LoginPages.OtherButtons` | pages/authLogin/authLogin.html.js:194-211 | a button for SAML, Shibboleth, Google or Azure appears iff that provider is supported and not the default and, except SAML, its login is enabled; in that order |
| `LoginPages.AuthLoginUnsupportedProvider` | pages/authLogin/authLogin.html.js:190-262 | the preferred button exists iff the first default is SAML, Shibboleth, Google or Azure, whatever the flags; it never reappears among the others; the label appears iff there is a preferred button and a non-LTI non-default provider |
| `LoginPages.PreferredNotRepeated` | pages/authLogin/authLogin.html.js:204-226 | the default's button exists iff its name is SAML, Shibboleth, Google or Azure, and each `showX` test keeps that button out of the other buttons |
| `LoginPages.PreferredIgnoresConfig` | pages/authLogin/authLogin.html.js:213-226 | the preferred button does not depend on the configuration flags |
| `LoginPages.FirstDefaultOnly` | pages/authLogin/authLogin.html.js:199-226 | only the first default counts: an LTI default ahead of a SAML default gives no preferred button, and SAML is then listed among the others |
| `LoginPages.OtherLabelOverNoButtons` | pages/authLogin/authLogin.html.js:200-211 | the "Other providers" label can appear with no button below it |

## Left out

- Markup: the HTML and CSS text, `renderEjs`, `unsafeHtml`, the `isEnterprise()` stylesheet and the Shibboleth link colours, logo and text. Buttons and messages are tags. The message text itself, including its misspelling "Pleaes", is not modelled.
- `is_default` is a boolean in the model. A `null` would count neither as default (`=== true`) nor as non-default (`=== false`).
- The institution sign-on links are the (name, url) pairs themselves.
- apps/prairielearn/src/ee/pages/institutionAdminLti13/institutionAdminLti13.ts is not part of this model. It is database queries, JWK key generation in a foreign library, flash messages and redirects.
- backend/routes/questionView.js is not part of this model. It is one database query and a render.
- Randomness: `random.randint` and `random.randrange` are an oracle of drawn values. Nothing about probabilities is modelled.
- RandomDraws.RandIntNonZero: that the loop ends with probability one when the range holds a non-zero integer is not stated. A loop that has used up its draws returns `Pending`.
- RandomDraws.RandIntNonZeroArray: for n >= 0 other than 2 and 3 the source loops forever. The model returns `Pending` at once.
- VectorText.VectorInBasis: a vector longer than three raises `IndexError` at a non-zero fourth component. It is excluded by a requires.
- VectorText.VectorInBasis: `inf` and `nan` have no `real` counterpart (`int()` raises on them in Python).
- VectorText.VectorInBasis: the text of a non-integral float is an input, not computed. It is only assumed to contain '.' or 'e' and not to start with '+'.
- numpy: `np.linalg.norm(r) == 0` is "all components zero". Arrays are integer vectors. `astype(int)` is exact because the shifted values are integers. `pl.to_json` is not modelled; the stored vectors are the integers themselves. `float(omega[2])` is a `real`.
- RbmOmega.Generate: the source raises `KeyError` if `data` lacks "params" or "correct_answers". In the model both maps always exist.
