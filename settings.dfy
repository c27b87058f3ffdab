/** The part of the hook's configuration the core reads: the container
    name, the optional retry policies and the per-message enable flags. */
module Settings {
  import opened Effects

  /** `EnabledLogMessages`: one flag per kind of log message. */
  datatype Messages = Messages(
    connectionAttempt: bool,
    connectionBooted: bool,
    playerJoined: bool,
    playerLeft: bool,
    chatMessage: bool,
    worldBackup: bool,
    terrariaError: bool,
    serverListening: bool,
    serverStopped: bool)

  /** The flags when the configuration file gives none. */
  const DefaultMessages := Messages(
    connectionAttempt := false,
    connectionBooted := false,
    playerJoined := true,
    playerLeft := true,
    chatMessage := true,
    worldBackup := true,
    terrariaError := true,
    serverListening := true,
    serverStopped := true)

  /** `AutoRetryConfig`: how long to wait before the next attempt. */
  datatype RetryPolicy = RetryPolicy(interval: real)

  /** `AutoRetryConfigs`: a policy per failure kind; an absent policy makes
      that kind fatal. */
  datatype AutoRetry = AutoRetry(
    containerNotFound: Option<RetryPolicy>,
    containerNotRunning: Option<RetryPolicy>)

  datatype Config = Config(
    container: string,
    autoRetry: Option<AutoRetry>,
    logMessages: Messages)
}
