/** The argument check at the top of `main`. */
module Cli {
  import opened Wrappers

  /** `process.argv[i]`, which is `undefined` past the end. */
  function Arg(argv: seq<string>, i: nat): Option<string> {
    if i < |argv| then Some(argv[i]) else None
  }

  /** JavaScript truthiness of a string that may be `undefined`. */
  predicate Truthy(v: Option<string>) {
    v.Some? && v.value != ""
  }

  /** Whether `main` gets past its usage check: argv[2] is the email, argv[3] the password. */
  function ArgsAccepted(argv: seq<string>): (ok: bool)
    ensures ok <==> |argv| >= 4 && '@' in argv[2] && argv[3] != "" && '@' !in argv[3]
  {
    var email, password := Arg(argv, 2), Arg(argv, 3);
    !(!Truthy(email) || !Truthy(password) || '@' !in email.value || '@' in password.value)
  }
}
