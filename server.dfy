/** The server's configuration precedence: a value given on the command line
    beats one from the environment, which beats the configuration file, which
    beats the built-in default. */
module Server {

  /** The first non-empty candidate, or `def` when all are empty: the
      precedence rule stated as a list. */
  function FirstGiven(candidates: seq<string>, def: string): (r: string)
    ensures r == def || r in candidates
    ensures r != "" || def == ""
  {
    if candidates == [] then def
    else if candidates[0] != "" then candidates[0]
    else FirstGiven(candidates[1..], def)
  }

  /** The first nonzero candidate, or `def` when all are zero. */
  function FirstNonzero(candidates: seq<int>, def: int): (r: int)
    ensures r == def || r in candidates
    ensures r != 0 || def == 0
  {
    if candidates == [] then def
    else if candidates[0] != 0 then candidates[0]
    else FirstNonzero(candidates[1..], def)
  }

  /** finalString: each later test overrides the one before, so the last
      non-empty source in the order def, config, env, cmd wins. */
  function FinalString(env: string, cmd: string, config: string, def: string): (r: string)
    ensures r == cmd || r == env || r == config || r == def
    ensures cmd != "" ==> r == cmd
  {
    var fromConfig := if config != "" then config else def;
    var fromEnv := if env != "" then env else fromConfig;
    if cmd != "" then cmd else fromEnv
  }

  /** finalString picks the command line, then the environment, then the
      configuration file, then the default. */
  lemma FinalStringPrecedence(env: string, cmd: string, config: string, def: string)
    ensures FinalString(env, cmd, config, def) == FirstGiven([cmd, env, config], def)
    ensures cmd != "" ==> FinalString(env, cmd, config, def) == cmd
    ensures cmd == "" && env != "" ==> FinalString(env, cmd, config, def) == env
    ensures cmd == "" && env == "" && config != "" ==> FinalString(env, cmd, config, def) == config
    ensures cmd == "" && env == "" && config == "" ==> FinalString(env, cmd, config, def) == def
  {
    assert [cmd, env, config][1..] == [env, config];
    assert [env, config][1..] == [config];
    assert [config][1..] == [];
    assert FirstGiven([config], def) == if config != "" then config else def;
    assert FirstGiven([env, config], def) == if env != "" then env else FirstGiven([config], def);
  }

  /** finalInt as written: the environment test assigns `cmd`, not `env`. */
  function FinalInt(env: int, cmd: int, config: int, def: int): (r: int)
    ensures r == cmd || r == config || r == def
    ensures cmd != 0 ==> r == cmd
  {
    var fromConfig := if config != 0 then config else def;
    var fromEnv := if env != 0 then cmd else fromConfig;
    if cmd != 0 then cmd else fromEnv
  }

  /** What finalInt returns, case by case: a nonzero command-line value wins;
      otherwise a nonzero environment value yields 0, and with both zero the
      configuration file's value, or the default when that is zero too. */
  lemma FinalIntCases(env: int, cmd: int, config: int, def: int)
    ensures cmd != 0 ==> FinalInt(env, cmd, config, def) == cmd
    ensures cmd == 0 && env != 0 ==> FinalInt(env, cmd, config, def) == 0
    ensures cmd == 0 && env == 0 ==> FinalInt(env, cmd, config, def) == FirstNonzero([config], def)
  {
    assert [config][1..] == [];
  }

  /** The environment's port is never the answer: it is discarded unless a
      nonzero command-line value happens to win anyway. */
  lemma FinalIntIgnoresEnv(env: int, env': int, cmd: int, config: int, def: int)
    requires env != 0 && env' != 0
    ensures FinalInt(env, cmd, config, def) == FinalInt(env', cmd, config, def)
    ensures FinalInt(env, cmd, config, def) == cmd
  {
  }

  /** A port of 5433 from the environment, nothing from the command line or
      the file, and the default 5432: the result is 0 rather than 5433. */
  lemma FinalIntDropsEnv()
    ensures FinalInt(5433, 0, 0, 5432) == 0
    ensures FinalIntIntended(5433, 0, 0, 5432) == 5433
  {
  }

  /** finalInt with the environment test assigning `env`, as finalString does. */
  function FinalIntIntended(env: int, cmd: int, config: int, def: int): (r: int)
    ensures r == cmd || r == env || r == config || r == def
    ensures cmd != 0 ==> r == cmd
  {
    var fromConfig := if config != 0 then config else def;
    var fromEnv := if env != 0 then env else fromConfig;
    if cmd != 0 then cmd else fromEnv
  }

  /** The corrected finalInt follows the same precedence as finalString:
      command line, environment, configuration file, default. */
  lemma FinalIntIntendedPrecedence(env: int, cmd: int, config: int, def: int)
    ensures FinalIntIntended(env, cmd, config, def) == FirstNonzero([cmd, env, config], def)
    ensures cmd == 0 ==> FinalIntIntended(env, cmd, config, def) == FirstNonzero([env, config], def)
    ensures FinalIntIntended(env, cmd, config, def) != 0 || def == 0
  {
    assert [cmd, env, config][1..] == [env, config];
    assert [env, config][1..] == [config];
    assert [config][1..] == [];
    assert FirstNonzero([config], def) == if config != 0 then config else def;
    assert FirstNonzero([env, config], def) == if env != 0 then env else FirstNonzero([config], def);
  }

  /** The two differ exactly when finalInt's environment branch is taken with
      a command-line value of zero. */
  lemma FinalIntDiffers(env: int, cmd: int, config: int, def: int)
    ensures FinalInt(env, cmd, config, def) != FinalIntIntended(env, cmd, config, def) <==> cmd == 0 && env != 0
  {
  }
}
