/**
 * The delay arithmetic of `gestionarTiempos`: each reason for waiting has a
 * base number of seconds, multiplied by the current attempt. The sleep
 * itself is not modelled; only the number of seconds it would block.
 */
module Backoff {

  /** The keys of the `MOTIVOS` table, in its order. */
  datatype Reason =
    | Standard            // 'ESPERA_ESTANDAR'
    | ConnectionError     // 'ESPERA_ERROR_CONEXION'
    | Timeout             // 'ESPERA_TIMEOUT'
    | ServerError         // 'ESPERA_ERROR_SERVIDOR'
    | ClientError         // 'ESPERA_ERROR_CLIENTE'
    | SuccessWithWarnings // 'ESPERA_CORRECTA_INCIDENCIAS'

  /** The `MOTIVOS` table, in seconds. */
  function BaseSeconds(reason: Reason): (seconds: nat)
    ensures 0 < seconds <= 3600
    ensures seconds == 3600 <==> reason == ConnectionError || reason == ServerError
    ensures seconds < 10 <==> reason == Standard || reason == ClientError
  {
    match reason
    case Standard => 3
    case ConnectionError => 3600
    case Timeout => 300
    case ServerError => 3600
    case ClientError => 5
    case SuccessWithWarnings => 10
  }

  /** `retraso = MOTIVOS[motivo] * intento`: linear in the attempt, no cap. */
  function Delay(reason: Reason, intento: int): (seconds: int)
    ensures seconds > 0 <==> intento > 0
    ensures seconds == 0 <==> intento == 0
    ensures intento > 0 ==> seconds <= 3600 * intento
  {
    BaseSeconds(reason) * intento
  }

  /** Every base is positive, so the first attempt always waits. */
  lemma DelayPositive(reason: Reason, intento: int)
    requires intento >= 1
    ensures Delay(reason, intento) >= BaseSeconds(reason) > 0
  {
  }

  /**
   * For a fixed reason the delay never shrinks as the attempt grows, and each
   * further attempt adds exactly one base.
   */
  lemma DelayGrowsWithAttempt(reason: Reason, a: int, b: int)
    requires a <= b
    ensures Delay(reason, a) <= Delay(reason, b)
    ensures Delay(reason, b) - Delay(reason, a) == BaseSeconds(reason) * (b - a)
  {
    var base := BaseSeconds(reason);
    assert base * b == base * a + base * (b - a);
  }

  /** The sum of the delays of attempts `lo` .. `hi`, in that order. */
  function TotalDelay(reason: Reason, lo: int, hi: int): int
    decreases hi - lo
  {
    if hi < lo then 0 else Delay(reason, lo) + TotalDelay(reason, lo + 1, hi)
  }

  /**
   * Exhausting the `MAX_REINTENTOS` attempts of one item for one reason waits
   * the base times 1 + 2 + ... + 10, that is 55 bases.
   */
  lemma {:induction false} TotalDelayIsTriangular(reason: Reason, n: nat)
    ensures 2 * TotalDelay(reason, 1, n) == BaseSeconds(reason) * n * (n + 1)
    decreases n
  {
    if n > 0 {
      TotalDelayIsTriangular(reason, n - 1);
      TotalDelaySplit(reason, 1, n);
    }
  }

  /** Peeling the last attempt off a total. */
  lemma {:induction false} TotalDelaySplit(reason: Reason, lo: int, hi: int)
    requires lo <= hi
    ensures TotalDelay(reason, lo, hi) == TotalDelay(reason, lo, hi - 1) + Delay(reason, hi)
    decreases hi - lo
  {
    if lo < hi {
      TotalDelaySplit(reason, lo + 1, hi);
    }
  }
}
