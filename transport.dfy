/** `getTransporter` (functions/index.js lines 15-33): the mail transport is a
    module-level variable built on first use from `EMAIL_USER` and
    `EMAIL_PASS` and reused afterwards. Building it fails, with
    "Email configuration missing", only while it is not built yet and one of
    the two credentials is absent or empty. */
module Transport {
  import opened Runtime

  /** A nodemailer transport for the `gmail` service with these credentials. */
  datatype Transporter = Gmail(user: string, pass: string)

  const ConfigurationMissing: string := "Email configuration missing"

  predicate CredentialsPresent(env: Env) {
    Truthy(env.emailUser) && Truthy(env.emailPass)
  }

  /** Whether `getTransporter()` returns rather than throws, given what the
      module variable holds. */
  predicate TransportAvailable(cached: Option<Transporter>, env: Env) {
    cached.Some? || CredentialsPresent(env)
  }

  /** What the module variable holds after one call of `getTransporter()`. */
  function CacheAfter(cached: Option<Transporter>, env: Env): (next: Option<Transporter>)
    ensures cached.Some? ==> next == cached
    ensures next.Some? <==> TransportAvailable(cached, env)
    ensures cached.None? && next.Some? ==> next.value == Gmail(env.emailUser.value, env.emailPass.value)
  {
    if cached.Some? then cached
    else if CredentialsPresent(env) then Some(Gmail(env.emailUser.value, env.emailPass.value))
    else None
  }

  /** Once built, the transport survives every later call whatever the environment. */
  lemma CacheStable(cached: Option<Transporter>, env1: Env, env2: Env)
    requires CacheAfter(cached, env1).Some?
    ensures CacheAfter(CacheAfter(cached, env1), env2) == CacheAfter(cached, env1)
  {
  }

  /** The process-wide holder of the `transporter` variable. */
  class Mailer {
    var transporter: Option<Transporter>

    /** Module load: `let transporter;`. */
    constructor ()
      ensures transporter == None
    {
      transporter := None;
    }

    method GetTransporter(env: Env) returns (r: Result<Transporter>)
      modifies this
      ensures transporter == CacheAfter(old(transporter), env)
      ensures r.Ok? <==> TransportAvailable(old(transporter), env)
      ensures r.Ok? ==> transporter == Some(r.value)
      ensures r.Err? ==> r.message == ConfigurationMissing
    {
      if transporter.None? {
        if !Truthy(env.emailUser) || !Truthy(env.emailPass) {
          return Err(ConfigurationMissing);
        }
        transporter := Some(Gmail(env.emailUser.value, env.emailPass.value));
      }
      r := Ok(transporter.value);
    }
  }
}
