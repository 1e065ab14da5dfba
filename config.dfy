/** Which configuration file libhdfs3 is pointed at: `setConfPath` writes
    LIBHDFS3_CONF into the process environment from an explicit path, or
    from the Hadoop environment variables when a candidate file is readable.
    The environment is a map from variable names to strings; the file-system
    access of `checkFile` is the set `readable` of paths it accepts. */
module Config {
  import opened Js

  const ConfVar := "LIBHDFS3_CONF"
  const ConfDirVar := "HADOOP_CONF_DIR"
  const InstallVar := "HADOOP_INSTALL"
  const HdfsSite := "hdfs-site.xml"

  /** `process.env[key]` is truthy: set and not empty. */
  predicate IsSet(env: map<string, string>, key: string) {
    key in env && env[key] != ""
  }

  /** `${HADOOP_CONF_DIR}/hdfs-site.xml`. */
  function ConfDirCandidate(env: map<string, string>): string
    requires ConfDirVar in env
  {
    env[ConfDirVar] + "/" + HdfsSite
  }

  /** `${HADOOP_INSTALL}/hadoop/conf/hdfs-site.xml`. */
  function InstallCandidate(env: map<string, string>): string
    requires InstallVar in env
  {
    env[InstallVar] + "/hadoop/conf/" + HdfsSite
  }

  /** The environment after `setConfPath(configurationPath, useHadoopConfEnv)`.
      Only LIBHDFS3_CONF can change, and no variable disappears. */
  function ResolveConf(env: map<string, string>, configurationPath: string, useHadoopConfEnv: bool,
                       readable: set<string>): (r: map<string, string>)
    ensures r.Keys == env.Keys + (if r == env then {} else {ConfVar})
    ensures forall k :: k in env && k != ConfVar ==> k in r && r[k] == env[k]
  {
    if configurationPath != "" then
      env[ConfVar := configurationPath]
    else if !IsSet(env, ConfVar) && useHadoopConfEnv then
      if IsSet(env, ConfDirVar) && ConfDirCandidate(env) in readable then
        env[ConfVar := ConfDirCandidate(env)]
      else if IsSet(env, InstallVar) && InstallCandidate(env) in readable then
        env[ConfVar := InstallCandidate(env)]
      else
        env
    else
      env
  }

  /** The configuration file in force, as the precedence order states it:
      the explicit path, then a LIBHDFS3_CONF already set, then (only when
      the Hadoop variables may be used) a readable file under
      HADOOP_CONF_DIR, then one under HADOOP_INSTALL, else none. */
  function Precedence(env: map<string, string>, configurationPath: string, useHadoopConfEnv: bool,
                      readable: set<string>): Option<string>
  {
    if configurationPath != "" then Some(configurationPath)
    else if IsSet(env, ConfVar) then Some(env[ConfVar])
    else if !useHadoopConfEnv then None
    else if IsSet(env, ConfDirVar) && ConfDirCandidate(env) in readable then Some(ConfDirCandidate(env))
    else if IsSet(env, InstallVar) && InstallCandidate(env) in readable then Some(InstallCandidate(env))
    else None
  }

  /** The configuration file LIBHDFS3_CONF names in an environment, if any. */
  function ConfIn(env: map<string, string>): Option<string> {
    if IsSet(env, ConfVar) then Some(env[ConfVar]) else None
  }

  /** setConfPath leaves LIBHDFS3_CONF naming exactly the file the precedence order picks. */
  lemma ResolveConfFollowsPrecedence(env: map<string, string>, configurationPath: string,
                                     useHadoopConfEnv: bool, readable: set<string>)
    ensures ConfIn(ResolveConf(env, configurationPath, useHadoopConfEnv, readable))
         == Precedence(env, configurationPath, useHadoopConfEnv, readable)
  {
    var r := ResolveConf(env, configurationPath, useHadoopConfEnv, readable);
    if configurationPath == "" && !IsSet(env, ConfVar) && useHadoopConfEnv {
      if IsSet(env, ConfDirVar) && ConfDirCandidate(env) in readable {
        assert r[ConfVar] == ConfDirCandidate(env);
        assert ConfDirCandidate(env) != "";
      } else if IsSet(env, InstallVar) && InstallCandidate(env) in readable {
        assert r[ConfVar] == InstallCandidate(env);
        assert InstallCandidate(env) != "";
      }
    }
  }

  /** A non-empty explicit path always wins, whatever the environment holds. */
  lemma ExplicitPathWins(env: map<string, string>, configurationPath: string,
                         useHadoopConfEnv: bool, readable: set<string>)
    requires configurationPath != ""
    ensures var r := ResolveConf(env, configurationPath, useHadoopConfEnv, readable);
            ConfVar in r && r[ConfVar] == configurationPath
  {
  }

  /** Without an explicit path, LIBHDFS3_CONF is written only when it was unset
      and the Hadoop variables may be used, and then only with one of the two
      readable candidates; in every other case the environment is unchanged. */
  lemma HadoopFallbackOnlyWhenUnset(env: map<string, string>, useHadoopConfEnv: bool, readable: set<string>)
    ensures var r := ResolveConf(env, "", useHadoopConfEnv, readable);
            r != env ==>
              && !IsSet(env, ConfVar) && useHadoopConfEnv
              && r == env[ConfVar := r[ConfVar]]
              && r[ConfVar] in readable
              && ((IsSet(env, ConfDirVar) && r[ConfVar] == ConfDirCandidate(env))
                  || (IsSet(env, InstallVar) && r[ConfVar] == InstallCandidate(env)))
    ensures var r := ResolveConf(env, "", useHadoopConfEnv, readable);
            (IsSet(env, ConfVar) || !useHadoopConfEnv) ==> r == env
  {
  }

  /** HADOOP_CONF_DIR is preferred to HADOOP_INSTALL when both candidates are readable. */
  lemma ConfDirBeforeInstall(env: map<string, string>, readable: set<string>)
    requires !IsSet(env, ConfVar)
    requires IsSet(env, ConfDirVar) && ConfDirCandidate(env) in readable
    requires IsSet(env, InstallVar) && InstallCandidate(env) in readable
    ensures ResolveConf(env, "", true, readable)[ConfVar] == ConfDirCandidate(env)
  {
  }

  /** The process environment, which setConfPath updates in place. */
  class Environment {
    var vars: map<string, string>

    constructor (vars: map<string, string>)
      ensures this.vars == vars
    {
      this.vars := vars;
    }

    /** setConfPath(configurationPath, useHadoopConfEnv); `readable` answers checkFile. */
    method SetConfPath(configurationPath: string, useHadoopConfEnv: bool, readable: set<string>)
      modifies this
      ensures vars == ResolveConf(old(vars), configurationPath, useHadoopConfEnv, readable)
      ensures ConfIn(vars) == Precedence(old(vars), configurationPath, useHadoopConfEnv, readable)
    {
      ResolveConfFollowsPrecedence(vars, configurationPath, useHadoopConfEnv, readable);
      if configurationPath != "" {
        vars := vars[ConfVar := configurationPath];
      } else if !IsSet(vars, ConfVar) && useHadoopConfEnv {
        if IsSet(vars, ConfDirVar) && ConfDirCandidate(vars) in readable {
          vars := vars[ConfVar := ConfDirCandidate(vars)];
        } else if IsSet(vars, InstallVar) && InstallCandidate(vars) in readable {
          vars := vars[ConfVar := InstallCandidate(vars)];
        }
      }
    }
  }
}
